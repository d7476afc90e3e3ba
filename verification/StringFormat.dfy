/**
 The incremental formatter of DeviceBox/string_format.h: a cursor over the format
 string that, after every argument, copies the next literal to the output and stops
 behind the next placeholder.

 `Render` is the recursive reference; the class is proved to compute it. `Split` gives
 the literals of a format, and `Template` goes the other way.
 */
module StringFormat {

  import opened Options

  // ---------------------------------------------------------------- reference

  /** The unescaped literal in front of the first placeholder, and the raw text behind
      that placeholder (None when the format holds no placeholder). */
  datatype Scanned = Scanned(literal: string, rest: Option<string>)

  function Scan(f: string): (s: Scanned)
    ensures s.rest.Some? ==> |s.rest.value| < |f|
  {
    if f == "" then Scanned("", None)
    else if f[0] != '%' then
      var s := Scan(f[1..]);
      Scanned([f[0]] + s.literal, s.rest)
    else if |f| > 1 && f[1] == '%' then
      var s := Scan(f[2..]);
      Scanned("%" + s.literal, s.rest)
    else
      // "%_" is two characters wide; a "%" before anything else is a placeholder by itself
      Scanned("", Some(if |f| > 1 && f[1] == '_' then f[2..] else f[1..]))
  }

  function Concat(parts: seq<string>): string {
    if parts == [] then "" else parts[0] + Concat(parts[1..])
  }

  /** What formatting `args` with `f` yields. Arguments are copied verbatim; surplus ones are
      appended; the text behind the first unfilled placeholder is copied without unescaping. */
  function Render(f: string, args: seq<string>): string
    decreases |args|
  {
    var s := Scan(f);
    match s.rest
    case None => s.literal + Concat(args)
    case Some(r) => if args == [] then s.literal + r else s.literal + args[0] + Render(r, args[1..])
  }

  // ---------------------------------------------------------------- literals and templates

  /** All literals of a format, unescaped: one more than it has placeholders. */
  function Split(f: string): (lits: seq<string>)
    ensures |lits| >= 1
    decreases |f|
  {
    var s := Scan(f);
    match s.rest
    case None => [s.literal]
    case Some(r) => [s.literal] + Split(r)
  }

  function Escape(s: string): string {
    if s == "" then "" else (if s[0] == '%' then "%%" else [s[0]]) + Escape(s[1..])
  }

  function Template(lits: seq<string>): string
    requires |lits| >= 1
  {
    if |lits| == 1 then Escape(lits[0]) else Escape(lits[0]) + "%_" + Template(lits[1..])
  }

  function Interleave(lits: seq<string>, args: seq<string>): string
    requires |lits| == |args| + 1
  {
    if args == [] then lits[0] else lits[0] + args[0] + Interleave(lits[1..], args[1..])
  }

  lemma ScanChar(c: char, t: string)
    requires c != '%'
    ensures Scan([c] + t) == Scanned([c] + Scan(t).literal, Scan(t).rest)
  {
    assert ([c] + t)[1..] == t;
  }

  lemma ScanPercent(t: string)
    ensures Scan("%%" + t) == Scanned("%" + Scan(t).literal, Scan(t).rest)
    ensures Scan("%_" + t) == Scanned("", Some(t))
  {
    assert ("%%" + t)[2..] == t;
    assert ("%_" + t)[2..] == t;
  }

  lemma ScanEscapedStep(l: string, r: string)
    requires l != ""
    ensures var s := Scan(Escape(l[1..]) + r);
            Scan(Escape(l) + r) == Scanned([l[0]] + s.literal, s.rest)
  {
    hide Scan;
    var t := Escape(l[1..]) + r;
    if l[0] == '%' {
      ScanPercent(t);
      Associative("%%", Escape(l[1..]), r);
      assert [l[0]] == "%";
    } else {
      ScanChar(l[0], t);
      Associative([l[0]], Escape(l[1..]), r);
    }
  }

  /** Splitting off the first character. */
  lemma Cons(l: string, r: string)
    requires l != ""
    ensures l + r == [l[0]] + (l[1..] + r)
  {}

  /** Escaped text scans back to the text itself, whatever follows it. */
  lemma {:induction false} ScanEscaped(l: string, r: string)
    ensures Scan(Escape(l) + r) == Scanned(l + Scan(r).literal, Scan(r).rest)
  {
    hide Scan;
    if l == "" {
      assert Escape(l) + r == r;
      assert l + Scan(r).literal == Scan(r).literal;
    } else {
      ScanEscaped(l[1..], r);
      ScanEscapedStep(l, r);
      Cons(l, Scan(r).literal);
    }
  }

  lemma ScanJoined(l: string, t: string)
    ensures Scan(Escape(l)) == Scanned(l, None)
    ensures Scan(Escape(l) + ("%_" + t)) == Scanned(l, Some(t))
  {
    ScanEscaped(l, "");
    ScanEscaped(l, "%_" + t);
    ScanPercent(t);
    assert Escape(l) + "" == Escape(l);
    assert l + "" == l;
  }

  lemma ScanTemplate(lits: seq<string>)
    requires |lits| >= 1
    ensures |lits| == 1 ==> Scan(Template(lits)) == Scanned(lits[0], None)
    ensures |lits| > 1 ==> Scan(Template(lits)) == Scanned(lits[0], Some(Template(lits[1..])))
  {
    if |lits| == 1 {
      ScanJoined(lits[0], "");
    } else {
      var t := Template(lits[1..]);
      ScanJoined(lits[0], t);
      var e := Escape(lits[0]);
      Associative(e, "%_", t);
    }
  }

  lemma Associative(a: string, b: string, c: string)
    ensures a + b + c == a + (b + c)
  {}

  /** `Template` has a left inverse, so a template determines its literals, whatever characters
      they contain. */
  lemma {:induction false} SplitTemplate(lits: seq<string>)
    requires |lits| >= 1
    ensures Split(Template(lits)) == lits
  {
    ScanTemplate(lits);
    if |lits| > 1 {
      SplitTemplate(lits[1..]);
      assert lits == [lits[0]] + lits[1..];
    } else {
      assert lits == [lits[0]];
    }
  }

  /** With at least one argument per placeholder, any format at all renders as its literals
      interleaved with the arguments, surplus arguments last. */
  lemma {:induction false} RenderEnoughArguments(f: string, args: seq<string>)
    requires |args| >= |Split(f)| - 1
    ensures var n := |Split(f)| - 1;
            Render(f, args) == Interleave(Split(f), args[..n]) + Concat(args[n..])
    decreases |f|
  {
    var s := Scan(f);
    var n := |Split(f)| - 1;
    if s.rest.Some? {
      var r := s.rest.value;
      RenderEnoughArguments(r, args[1..]);
      assert Split(f)[1..] == Split(r);
      assert args[..n][1..] == args[1..][..n - 1];
      assert args[n..] == args[1..][n - 1..];
    } else {
      assert args[n..] == args;
    }
  }

  /** The raw text behind the n-th placeholder. */
  function Behind(f: string, n: nat): string
    decreases n
  {
    if n == 0 then f
    else
      match Scan(f).rest
      case None => ""
      case Some(r) => Behind(r, n - 1)
  }

  /** It is a suffix of the format, and holds exactly the literals that are left. */
  lemma {:induction false} BehindIsSuffix(f: string, n: nat)
    requires n < |Split(f)|
    ensures exists front :: f == front + Behind(f, n)
    ensures Split(Behind(f, n)) == Split(f)[n..]
    decreases n
  {
    if n == 0 {
      assert f == "" + Behind(f, 0);
    } else {
      var r := Scan(f).rest.value;
      BehindIsSuffix(r, n - 1);
      var back :| r == back + Behind(r, n - 1);
      var front := RestIsSuffix(f);
      Associative(front, back, Behind(r, n - 1));
      assert f == (front + back) + Behind(f, n);
      assert Split(f)[1..] == Split(r);
    }
  }

  lemma {:induction false} RestIsSuffix(f: string) returns (front: string)
    requires Scan(f).rest.Some?
    ensures f == front + Scan(f).rest.value
  {
    if f[0] != '%' {
      var t := RestIsSuffix(f[1..]);
      front := [f[0]] + t;
    } else if |f| > 1 && f[1] == '%' {
      var t := RestIsSuffix(f[2..]);
      front := f[..2] + t;
      Associative(f[..2], t, Scan(f).rest.value);
      assert f == f[..2] + f[2..];
    } else {
      var n := |f| - |Scan(f).rest.value|;
      front := f[..n];
    }
  }

  /** With fewer arguments than placeholders, for any format at all, the placeholder left open
      disappears and everything behind it comes out as it was written, escapes and placeholders
      included. */
  lemma {:induction false} RenderMissingArguments(f: string, args: seq<string>)
    requires |Split(f)| > |args| + 1
    ensures Render(f, args) == Interleave(Split(f)[..|args| + 1], args) + Behind(f, |args| + 1)
    decreases |args|
  {
    var s, n := Scan(f), |args| + 1;
    var r := s.rest.value;
    if args != [] {
      RenderMissingArguments(r, args[1..]);
      assert Split(f)[..n][1..] == Split(r)[..n - 1];
      Associative(s.literal + args[0], Interleave(Split(r)[..n - 1], args[1..]), Behind(r, n - 1));
    } else {
      assert Behind(r, 0) == r;
    }
  }

  /** In a template that text is the template of the literals left. */
  lemma {:induction false} BehindTemplate(lits: seq<string>, n: nat)
    requires n < |lits|
    ensures Behind(Template(lits), n) == Template(lits[n..])
    decreases n
  {
    if n == 0 {
      assert lits[0..] == lits;
    } else {
      ScanTemplate(lits);
      BehindTemplate(lits[1..], n - 1);
      assert lits[1..][n - 1..] == lits[n..];
    }
  }

  /** Round trip: escaped literals joined by "%_" and fed one argument per gap. */
  lemma RoundTrip(lits: seq<string>, args: seq<string>)
    requires |lits| == |args| + 1
    ensures Render(Template(lits), args) == Interleave(lits, args)
  {
    SplitTemplate(lits);
    RenderEnoughArguments(Template(lits), args);
    assert args[..|args|] == args;
    assert Concat(args[|args|..]) == "";
  }

  /** Escapes, both kinds of placeholders, surplus and missing arguments, spelled out. */
  lemma Examples()
    ensures Render("a%_b%%", ["1"]) == "a1b%"
    ensures Render("%x%", ["1", "2", "3"]) == "1x23"
    ensures Render("%_%%%_", []) == "%%%_"
  {
    WideExample();
    NarrowExample();
    hide Scan;
    ScanPercent("%%%_");
    assert "%_" + "%%%_" == "%_%%%_";
  }

  lemma WideExample()
    ensures Render("a%_b%%", ["1"]) == "a1b%"
  {
    assert Scan("") == Scanned("", None);
    hide Scan;
    ScanPercent("b%%");
    ScanPercent("");
    ScanChar('a', "%_b%%");
    ScanChar('b', "%%");
    assert "%_" + "b%%" == "%_b%%" && "%%" + "" == "%%";
    assert ['a'] + "%_b%%" == "a%_b%%" && ['b'] + "%%" == "b%%";
    assert ["1"][1..] == [];
  }

  lemma NarrowExample()
    ensures Render("%x%", ["1", "2", "3"]) == "1x23"
  {
    assert Scan("%x%") == Scanned("", Some("x%")) by { ScanAtPercent("%x%"); }
    assert Scan("%") == Scanned("", Some("")) by { ScanAtPercent("%"); }
    assert Scan("") == Scanned("", None);
    hide Scan;
    ScanChar('x', "%");
    assert ['x'] + "%" == "x%";
    assert ["1", "2", "3"][1..] == ["2", "3"] && ["2", "3"][1..] == ["3"];
  }

  // ---------------------------------------------------------------- the cursor machine

  function Find(s: string, c: char, from: nat): (r: Option<nat>)
    requires from <= |s|
    ensures r.Some? ==> from <= r.value < |s| && s[r.value] == c && c !in s[from..r.value]
    ensures r.None? ==> c !in s[from..]
    decreases |s| - from
  {
    if from == |s| then None
    else if s[from] == c then Some(from)
    else
      var r := Find(s, c, from + 1);
      assert s[from..] == [s[from]] + s[from + 1..];
      assert r.Some? ==> s[from..r.value] == [s[from]] + s[from + 1..r.value];
      r
  }

  /** A stretch without "%" is copied literally. */
  lemma {:induction false} ScanPlainPrefix(p: string, r: string)
    requires '%' !in p
    ensures Scan(p + r) == Scanned(p + Scan(r).literal, Scan(r).rest)
  {
    hide Scan;
    if p == "" {
      assert p + r == r;
      assert p + Scan(r).literal == Scan(r).literal;
    } else {
      ScanPlainPrefix(p[1..], r);
      ScanChar(p[0], p[1..] + r);
      Cons(p, r);
      Cons(p, Scan(r).literal);
    }
  }

  lemma ScanNoPercent(f: string)
    requires '%' !in f
    ensures Scan(f) == Scanned(f, None)
  {
    ScanPlainPrefix(f, "");
    assert f + "" == f;
  }

  /** What the reference does at the first "%" at or behind `from`. */
  lemma ScanToPercent(f: string, from: nat, at: nat)
    requires from <= at < |f| && f[at] == '%' && '%' !in f[from..at]
    ensures var wide := at + 1 < |f|;
            Scan(f[from..]) ==
              if wide && f[at + 1] == '%' then
                Scanned(f[from..at + 1] + Scan(f[at + 2..]).literal, Scan(f[at + 2..]).rest)
              else
                Scanned(f[from..at], Some(f[at + (if wide && f[at + 1] == '_' then 2 else 1)..]))
  {
    var plain, r := f[from..at], f[at..];
    assert f[from..] == plain + r;
    ScanPlainPrefix(plain, r);
    ScanAtPercent(r);
    if at + 1 < |f| && f[at + 1] == '%' {
      assert r[2..] == f[at + 2..];
      assert f[from..at + 1] == plain + "%";
      Associative(plain, "%", Scan(f[at + 2..]).literal);
    } else {
      assert r[1..] == f[at + 1..];
      assert |r| > 1 ==> r[1] == f[at + 1] && r[2..] == f[at + 2..];
      assert plain + "" == plain;
    }
  }

  lemma ScanAtPercent(r: string)
    requires r != "" && r[0] == '%'
    ensures Scan(r) ==
              if |r| > 1 && r[1] == '%' then Scanned("%" + Scan(r[2..]).literal, Scan(r[2..]).rest)
              else Scanned("", Some(if |r| > 1 && r[1] == '_' then r[2..] else r[1..]))
  {}

  function Copies(x: string, count: nat): seq<string> {
    if count == 0 then [] else [x] + Copies(x, count - 1)
  }

  class Formatter {
    var format: string
    var pos: Option<nat>  // None is string::npos: the whole format has been copied
    var out: string

    ghost predicate Valid()
      reads this
    {
      pos.Some? ==> pos.value <= |format|
    }

    /** The string that Str() returns if `args` are fed first. The cursor stands behind a
        placeholder, so the next argument comes before any further scanning. */
    ghost function Outcome(args: seq<string>): string
      requires Valid()
      reads this
    {
      if pos.None? then out + Concat(args)
      else if args == [] then out + format[pos.value..]
      else out + args[0] + Render(format[pos.value..], args[1..])
    }

    constructor Empty()
      ensures Valid()
      ensures forall args :: Outcome(args) == Concat(args)
    {
      format, pos, out := "", Some(0), "";
      new;
      forall args: seq<string>
        ensures Outcome(args) == Concat(args)
      {
        if args != [] {
          assert Render("", args[1..]) == "" + Concat(args[1..]);
        }
      }
    }

    constructor (f: string)
      ensures Valid()
      ensures forall args :: Outcome(args) == Render(f, args)
    {
      format, pos, out := f, Some(0), "";
      new;
      PushNext();
      OutcomeIsRender(f, "");
    }

    /** After a scan of `f`, what is pending is exactly the reference on `f`. */
    lemma OutcomeIsRender(f: string, before: string)
      requires Valid()
      requires out == before + Scan(f).literal
      requires Scan(f).rest.None? <==> pos.None?
      requires pos.Some? ==> format[pos.value..] == Scan(f).rest.value
      ensures forall args :: Outcome(args) == before + Render(f, args)
    {
      forall args: seq<string>
        ensures Outcome(args) == before + Render(f, args)
      {
        hide Scan, Concat;
        var s := Scan(f);
        if pos.None? {
          Associative(before, s.literal, Concat(args));
        } else if args == [] {
          Associative(before, s.literal, s.rest.value);
        } else {
          var tail := Render(s.rest.value, args[1..]);
          Associative(before, s.literal, args[0]);
          Associative(before, s.literal + args[0], tail);
        }
      }
    }

    method PushRemainder()
      requires Valid()
      modifies this`pos, this`out
      ensures Valid() && pos.None?
      ensures out == old(Outcome([]))
    {
      if pos.Some? {
        out := out + format[pos.value..];
        pos := None;
      }
    }

    /** Copies the next literal and stops behind the next placeholder, or at the end. */
    method PushNext()
      requires Valid()
      modifies this`pos, this`out
      ensures Valid()
      ensures old(pos).None? ==> pos.None? && out == old(out)
      ensures old(pos).Some? ==>
                var s := Scan(format[old(pos).value..]);
                && out == old(out) + s.literal
                && (s.rest.None? <==> pos.None?)
                && (pos.Some? ==> format[pos.value..] == s.rest.value)
    {
      hide Scan;
      if pos.None? { return; }
      ghost var target := Scan(format[pos.value..]);
      var more := true;
      while more
        invariant Valid()
        invariant more ==> pos.Some?
        invariant more ==> out + Scan(format[pos.value..]).literal == old(out) + target.literal
        invariant more ==> Scan(format[pos.value..]).rest == target.rest
        invariant !more ==> out == old(out) + target.literal
        invariant !more ==> (target.rest.None? <==> pos.None?)
        invariant !more && pos.Some? ==> format[pos.value..] == target.rest.value
        decreases more, if pos.Some? then |format| - pos.value else 0
      {
        more := false;
        var from := pos.value;
        ghost var f := format[from..];
        var found := Find(format, '%', from);
        if found.Some? {
          var newPos := found.value;
          var placeholderLen := 1;
          ghost var before := out;
          ScanToPercent(format, from, newPos);
          if newPos + 1 < |format| {
            var char2 := format[newPos + 1];
            if char2 == '%' {
              newPos := newPos + 1;
              more := true;
            } else if char2 == '_' {
              placeholderLen := 2;
            }
          }
          ghost var left := format[newPos + placeholderLen..];
          if more {
            Associative(before, format[from..newPos], Scan(left).literal);
          }
          out := out + format[from..newPos];
          pos := Some(newPos + placeholderLen);
          assert format[pos.value..] == left;
        } else {
          ScanNoPercent(f);
          PushRemainder();
        }
      }
    }

    /** operator%: feeds one argument. */
    method Arg(x: string)
      requires Valid()
      modifies this`pos, this`out
      ensures Valid()
      ensures forall args :: Outcome(args) == old(Outcome([x] + args))
    {
      ghost var before := out;
      ghost var f := if pos.Some? then format[pos.value..] else "";
      ghost var wasOpen := pos.Some?;
      out := out + x;
      PushNext();
      if wasOpen {
        OutcomeIsRender(f, before + x);
      }
      forall args: seq<string>
        ensures Outcome(args) == old(Outcome([x] + args))
      {
        assert ([x] + args)[1..] == args;
        if !wasOpen {
          assert before + (x + Concat(args)) == before + x + Concat(args);
        }
      }
    }

    /** operator()(x, count): the same argument `count` times. */
    method Repeat(x: string, count: nat)
      requires Valid()
      modifies this`pos, this`out
      ensures Valid()
      ensures forall args :: Outcome(args) == old(Outcome(Copies(x, count) + args))
    {
      hide Outcome;
      var left := count;
      while left > 0
        invariant 0 <= left <= count && Valid()
        invariant forall args :: Outcome(Copies(x, left) + args) == old(Outcome(Copies(x, count) + args))
      {
        ghost var rest := Copies(x, left - 1);
        forall args: seq<string>
          ensures [x] + (rest + args) == Copies(x, left) + args
        {}
        Arg(x);
        left := left - 1;
      }
      forall args: seq<string>
        ensures Outcome(args) == old(Outcome(Copies(x, count) + args))
      {
        assert Copies(x, 0) + args == args;
      }
    }

    method Str() returns (s: string)
      requires Valid()
      modifies this`pos, this`out
      ensures Valid()
      ensures s == old(Outcome([]))
      ensures forall args :: Outcome(args) == s + Concat(args)
    {
      PushRemainder();
      s := out;
    }

    method SetFormat(f: string)
      modifies this
      ensures Valid()
      ensures forall args :: Outcome(args) == Render(f, args)
    {
      out := "";
      format := f;
      pos := Some(0);
      PushNext();
      OutcomeIsRender(f, "");
    }
  }

  /** The chain string_format(f)(a0)...(an).str() computes the reference. */
  method Format(f: string, args: seq<string>) returns (s: string)
    ensures s == Render(f, args)
  {
    var fmt := new Formatter(f);
    var i := 0;
    while i < |args|
      invariant i <= |args| && fmt.Valid() && fresh(fmt)
      invariant fmt.Outcome(args[i..]) == Render(f, args)
    {
      assert args[i..] == [args[i]] + args[i + 1..];
      fmt.Arg(args[i]);
      i := i + 1;
    }
    s := fmt.Str();
  }
}
