/**
 The request body that DeleteBatchAction::init of DeviceBox/Dropbox.cpp writes for a list of
 paths, and a reader of such bodies after RFC 8259: structural characters and whitespace
 (section 2), objects and arrays (sections 4 and 5), strings with all their escapes
 (section 7). The paths are written without escaping, so the body says what it should
 exactly for the lists in which no path needs any.
 */
module DeleteBatch {

  import opened Options

  // ---------------------------------------------------------------- the body

  const OPENING := "{ \"entries\": ["
  const CLOSING := "]}"
  const BEFORE_PATH := "{ \"path\": \""
  const AFTER_PATH := "\" }"
  const SEPARATOR := ", "

  function Entry(path: string): string {
    BEFORE_PATH + path + AFTER_PATH
  }

  function Entries(paths: seq<string>): string {
    if paths == [] then ""
    else if |paths| == 1 then Entry(paths[0])
    else Entry(paths[0]) + SEPARATOR + Entries(paths[1..])
  }

  function Body(paths: seq<string>): string {
    OPENING + Entries(paths) + CLOSING
  }

  /** The text itself. */
  lemma Examples(a: string, b: string)
    ensures Entry(a) == "{ \"path\": \"" + a + "\" }"
    ensures Body([]) == "{ \"entries\": []}"
    ensures Body([a]) == "{ \"entries\": [" + Entry(a) + "]}"
    ensures Body([a, b]) == "{ \"entries\": [" + (Entry(a) + ", " + Entry(b)) + "]}"
  {
    assert [a, b][1..] == [b];
    assert Entries([a, b]) == Entry(a) + SEPARATOR + Entries([b]);
    assert Entries([b]) == Entry(b);
  }

  lemma {:induction false} EntriesSnoc(paths: seq<string>, path: string)
    ensures Entries(paths + [path]) == Entries(paths) + (if paths == [] then "" else SEPARATOR) + Entry(path)
  {
    if |paths| > 1 {
      EntriesSnoc(paths[1..], path);
      assert (paths + [path])[1..] == paths[1..] + [path];
      assert Entries(paths + [path]) == Entry(paths[0]) + SEPARATOR + Entries(paths[1..] + [path]);
    } else if |paths| == 1 {
      assert (paths + [path])[1..] == [path];
      assert Entries([path]) == Entry(path);
    } else {
      assert paths + [path] == [path];
    }
  }

  lemma Appended(s: string, path: string)
    ensures s + BEFORE_PATH + path + AFTER_PATH == s + Entry(path)
  {}

  lemma Grown(paths: seq<string>, path: string)
    ensures OPENING + Entries(paths + [path])
         == OPENING + Entries(paths) + (if paths == [] then "" else SEPARATOR) + Entry(path)
  {
    EntriesSnoc(paths, path);
  }

  /** The rendering loop. */
  method WriteBody(list: seq<string>) returns (data: string)
    ensures data == Body(list)
  {
    data := OPENING;
    var first := true;
    var i := 0;
    while i < |list|
      invariant i <= |list| && (first <==> i == 0)
      invariant data == OPENING + Entries(list[..i])
    {
      assert list[..i + 1] == list[..i] + [list[i]];
      if first {
        first := false;
      } else {
        data := data + SEPARATOR;
      }
      ghost var separated := data;
      data := data + BEFORE_PATH;
      data := data + list[i];
      data := data + AFTER_PATH;
      Appended(separated, list[i]);
      Grown(list[..i], list[i]);
      i := i + 1;
    }
    assert list[..i] == list;
    data := data + CLOSING;
  }

  // ---------------------------------------------------------------- strings, section 7 of RFC 8259

  function HexDigit(c: char): (r: Option<nat>)
    ensures r.Some? ==> r.value < 16 && c != '"'
  {
    if '0' <= c <= '9' then Some(c as nat - '0' as nat)
    else if 'a' <= c <= 'f' then Some(c as nat - 'a' as nat + 10)
    else if 'A' <= c <= 'F' then Some(c as nat - 'A' as nat + 10)
    else None
  }

  function TwoHex(high: char, low: char): (r: Option<nat>)
    ensures r.Some? ==> r.value < 0x100 && high != '"' && low != '"'
  {
    match (HexDigit(high), HexDigit(low))
    case (Some(h), Some(l)) => Some(h * 16 + l)
    case _ => None
  }

  /** The number written by the first four characters. */
  function FourHex(s: string): (r: Option<nat>)
    ensures r.Some? ==> |s| >= 4 && r.value < 0x1_0000 && NoQuote(s, 4)
  {
    if |s| < 4 then None
    else
      match (TwoHex(s[0], s[1]), TwoHex(s[2], s[3]))
      case (Some(h), Some(l)) => Some(h * 0x100 + l)
      case _ => None
  }

  /** A decoded character and the number of characters that encode it, the backslash included. */
  datatype Escaped = Escaped(decoded: char, width: nat)

  /** The escape sequence that starts at s[0], which is a backslash. */
  function ReadEscape(s: string): (r: Option<Escaped>)
    requires s != "" && s[0] == '\\'
    ensures r.Some? ==> 2 <= r.value.width <= |s|
    ensures r.Some? && s[1] != '"' ==> NoQuote(s, r.value.width)
    ensures r.Some? && s[1] == '"' ==> r.value == Escaped('"', 2)
  {
    if |s| < 2 then None
    else if s[1] == '"' || s[1] == '\\' || s[1] == '/' then Some(Escaped(s[1], 2))
    else if s[1] == 'b' then Some(Escaped(8 as char, 2))
    else if s[1] == 'f' then Some(Escaped(12 as char, 2))
    else if s[1] == 'n' then Some(Escaped('\n', 2))
    else if s[1] == 'r' then Some(Escaped('\r', 2))
    else if s[1] == 't' then Some(Escaped('\t', 2))
    else if s[1] == 'u' then ReadUnicode(s)
    else None
  }

  /** A \u escape, or two of them for a surrogate pair. */
  function ReadUnicode(s: string): (r: Option<Escaped>)
    requires |s| >= 2 && s[0] == '\\' && s[1] == 'u'
    ensures r.Some? ==> 6 <= r.value.width <= |s| && NoQuote(s, r.value.width)
  {
    match FourHex(s[2..])
    case None => None
    case Some(v) =>
      assert NoQuote(s[2..], 4) && NoQuote(s, 6);
      if !(0xD800 <= v < 0xE000) then Some(Escaped(v as char, 6))
      else if v < 0xDC00 && |s| >= 8 && s[6] == '\\' && s[7] == 'u' then
        match FourHex(s[8..])
        case None => None
        case Some(w) =>
          assert NoQuote(s[8..], 4) && NoQuote(s, 12);
          if 0xDC00 <= w < 0xE000 then
            Some(Escaped((0x1_0000 + (v - 0xD800) * 0x400 + (w - 0xDC00)) as char, 12))
          else None
      else None
  }

  /** The text of a string whose opening quote has been read, and what follows its closing quote. */
  datatype Text = Text(text: string, rest: string)

  function ReadString(s: string): (r: Option<Text>)
    ensures r.Some? ==> |r.value.rest| < |s|
    decreases |s|
  {
    if s == "" then None
    else if s[0] == '"' then Some(Text("", s[1..]))
    else if s[0] == '\\' then
      match ReadEscape(s)
      case None => None
      case Some(e) =>
        (match ReadString(s[e.width..])
         case None => None
         case Some(t) => Some(Text([e.decoded] + t.text, t.rest)))
    else if s[0] < ' ' then None
    else
      match ReadString(s[1..])
      case None => None
      case Some(t) => Some(Text([s[0]] + t.text, t.rest))
  }

  /** Characters that stand for themselves inside a string. */
  predicate PlainChar(c: char) {
    c != '"' && c != '\\' && c >= ' '
  }

  predicate Plain(s: string) {
    forall i :: 0 <= i < |s| ==> PlainChar(s[i])
  }

  lemma {:induction false} ReadPlain(p: string, rest: string)
    requires Plain(p)
    ensures ReadString(p + ("\"" + rest)) == Some(Text(p, rest))
  {
    var s := p + ("\"" + rest);
    if p == "" {
      assert s == "\"" + rest && s[1..] == rest;
    } else {
      assert PlainChar(p[0]);
      ReadPlain(p[1..], rest);
      assert s[1..] == p[1..] + ("\"" + rest);
      assert p == [p[0]] + p[1..];
    }
  }

  predicate NoQuote(s: string, n: nat)
    requires n <= |s|
  {
    forall i :: 0 <= i < n ==> s[i] != '"'
  }

  /** What can be read of `s`, whose first quote is at j: every escape shortens the text, and a quote
      in the text comes earlier than the quote that was read. */
  ghost predicate Shrunk(s: string, j: nat, t: string)
    requires j <= |s|
  {
    || (exists i :: 0 <= i < |t| && i < j && t[i] == '"')
    || (|t| <= j && (|t| == j ==> t == s[..j] && Plain(t)))
  }

  lemma {:induction false} ReadStringShrinks(s: string, j: nat)
    requires j < |s| && s[j] == '"' && NoQuote(s, j)
    requires ReadString(s).Some?
    ensures Shrunk(s, j, ReadString(s).value.text)
    decreases |s|
  {
    hide Shrunk, ReadEscape;
    if s[0] == '"' {
      NothingRead(s);
    } else if s[0] == '\\' {
      var e := ReadEscape(s).value;
      if s[1] == '"' {
        QuoteRead(s, j, ReadString(s).value.text);
      } else {
        assert e.width <= j by { assert s[j] == '"' && NoQuote(s, e.width); }
        ReadStringShrinks(s[e.width..], j - e.width);
        ShrunkStep(s, j, e.width, e.decoded, ReadString(s[e.width..]).value.text);
      }
    } else {
      ReadStringShrinks(s[1..], j - 1);
      ShrunkStep(s, j, 1, s[0], ReadString(s[1..]).value.text);
    }
  }

  lemma NothingRead(s: string)
    ensures Shrunk(s, 0, "")
  {}

  lemma QuoteRead(s: string, j: nat, t: string)
    requires 0 < j <= |s| && t != "" && t[0] == '"'
    ensures Shrunk(s, j, t)
  {}

  lemma ShrunkStep(s: string, j: nat, width: nat, c: char, t: string)
    requires 0 < width <= j <= |s| && Shrunk(s[width..], j - width, t)
    requires width == 1 ==> c == s[0] && PlainChar(c)
    ensures Shrunk(s, j, [c] + t)
  {
    if i :| 0 <= i < |t| && i < j - width && t[i] == '"' {
      assert ([c] + t)[i + 1] == '"';
    } else if |t| + 1 == j {
      assert width == 1 && t == s[1..][..j - 1];
      assert s[..j] == [s[0]] + s[1..][..j - 1];
    }
  }

  /** Written between quotes, a text reads back as itself exactly when it is plain. */
  lemma ReadBackIsPlain(p: string, rest: string)
    ensures (ReadString(p + ("\"" + rest)).Some? && ReadString(p + ("\"" + rest)).value.text == p) <==> Plain(p)
  {
    if Plain(p) {
      ReadPlain(p, rest);
    }
    var s := p + ("\"" + rest);
    if ReadString(s).Some? && ReadString(s).value.text == p {
      assert s[|p|] == '"';
      var j := FirstQuote(s, |p|);
      ReadStringShrinks(s, j);
      assert forall i :: 0 <= i < j ==> p[i] == s[i];
    }
  }

  lemma {:induction false} FirstQuote(s: string, k: nat) returns (j: nat)
    requires k < |s| && s[k] == '"'
    ensures j <= k && s[j] == '"' && NoQuote(s, j)
    decreases k
  {
    if i :| 0 <= i < k && s[i] == '"' {
      j := FirstQuote(s, i);
    } else {
      j := k;
    }
  }

  // ---------------------------------------------------------------- tokens and structure, sections 2, 4 and 5

  datatype Token = Punctuation(c: char) | Word(text: string)

  predicate Structural(c: char) {
    c in "{}[]:,"
  }

  predicate Whitespace(c: char) {
    c == ' ' || c == '\t' || c == '\n' || c == '\r'
  }

  function Prepend(t: Token, rest: Option<seq<Token>>): Option<seq<Token>> {
    match rest
    case None => None
    case Some(ts) => Some([t] + ts)
  }

  /** Numbers and literal names do not occur in these bodies and are not read. */
  function Tokens(s: string): Option<seq<Token>>
    decreases |s|
  {
    if s == "" then Some([])
    else if Whitespace(s[0]) then Tokens(s[1..])
    else if Structural(s[0]) then Prepend(Punctuation(s[0]), Tokens(s[1..]))
    else if s[0] == '"' then
      match ReadString(s[1..])
      case None => None
      case Some(t) => Prepend(Word(t.text), Tokens(t.rest))
    else None
  }

  const ENTRIES_TOKENS := [Punctuation('{'), Word("entries"), Punctuation(':'), Punctuation('[')]

  function EntryTokens(path: string): seq<Token> {
    [Punctuation('{'), Word("path"), Punctuation(':'), Word(path), Punctuation('}')]
  }

  /** The elements of the array and its end: entries separated by commas, each an object whose only
      member is "path". */
  function ReadEntries(ts: seq<Token>): Option<seq<string>>
    decreases |ts|
  {
    if |ts| < 5 || !ts[3].Word? || ts[..5] != EntryTokens(ts[3].text) then None
    else if ts[5..] == [Punctuation(']'), Punctuation('}')] then Some([ts[3].text])
    else if |ts| > 5 && ts[5] == Punctuation(',') then
      match ReadEntries(ts[6..])
      case None => None
      case Some(paths) => Some([ts[3].text] + paths)
    else None
  }

  /** The list that a body asks to delete. */
  function ReadBody(s: string): Option<seq<string>> {
    match Tokens(s)
    case None => None
    case Some(ts) =>
      if |ts| < 4 || ts[..4] != ENTRIES_TOKENS then None
      else if ts[4..] == [Punctuation(']'), Punctuation('}')] then Some([])
      else ReadEntries(ts[4..])
  }

  lemma TokensSpace(r: string)
    ensures Tokens(" " + r) == Tokens(r)
  {
    assert (" " + r)[1..] == r;
  }

  lemma TokensPunctuation(c: char, r: string)
    requires Structural(c)
    ensures Tokens([c] + r) == Prepend(Punctuation(c), Tokens(r))
  {
    assert ([c] + r)[1..] == r;
  }

  lemma TokensWord(s: string)
    ensures Tokens("\"" + s) == match ReadString(s)
              case None => None
              case Some(t) => Prepend(Word(t.text), Tokens(t.rest))
  {
    assert ("\"" + s)[1..] == s;
  }

  function PrependAll(ts: seq<Token>, rest: Option<seq<Token>>): Option<seq<Token>> {
    match rest
    case None => None
    case Some(us) => Some(ts + us)
  }

  /** A key: an opening brace, a plain name in quotes and the colon behind it. */
  lemma TokensKey(name: string, r: string)
    requires Plain(name)
    ensures Tokens("{" + (" " + ("\"" + (name + ("\"" + (":" + (" " + r)))))))
         == PrependAll([Punctuation('{'), Word(name), Punctuation(':')], Tokens(r))
  {
    var r3 := ":" + (" " + r);
    var r2 := name + ("\"" + r3);
    TokensPunctuation('{', " " + ("\"" + r2));
    TokensSpace("\"" + r2);
    TokensWord(r2);
    ReadPlain(name, r3);
    TokensPunctuation(':', " " + r);
    TokensSpace(r);
    if Tokens(r).Some? {
      PrependThree(Punctuation('{'), Word(name), Punctuation(':'), Tokens(r).value);
    }
  }

  lemma TokensOpening(r: string)
    ensures Tokens(OPENING + r) == PrependAll(ENTRIES_TOKENS, Tokens(r))
  {
    assert OPENING + r == "{" + (" " + ("\"" + ("entries" + ("\"" + (":" + (" " + (['['] + r)))))));
    TokensKey("entries", ['['] + r);
    TokensPunctuation('[', r);
    var key := [Punctuation('{'), Word("entries"), Punctuation(':')];
    PrependLast(key, Punctuation('['), Tokens(r));
    assert key + [Punctuation('[')] == ENTRIES_TOKENS;
  }

  lemma PrependThree(a: Token, b: Token, c: Token, ts: seq<Token>)
    ensures [a] + ([b] + ([c] + ts)) == [a, b, c] + ts
  {}

  lemma PrependLast(front: seq<Token>, last: Token, rest: Option<seq<Token>>)
    ensures PrependAll(front, Prepend(last, rest)) == PrependAll(front + [last], rest)
  {
    if rest.Some? {
      assert front + ([last] + rest.value) == (front + [last]) + rest.value;
    }
  }

  lemma TokensClosing()
    ensures Tokens(CLOSING) == Some([Punctuation(']'), Punctuation('}')])
  {
    TokensPunctuation('}', "");
    TokensPunctuation(']', "}");
    assert ['}'] + "" == "}" && [']'] + "}" == CLOSING;
    assert [Punctuation(']')] + ([Punctuation('}')] + []) == [Punctuation(']'), Punctuation('}')];
  }

  /** What an entry reads as: its fixed part, then whatever the path makes of the rest. */
  lemma TokensBeforePath(r: string)
    ensures Tokens(BEFORE_PATH + r) == match ReadString(r)
              case None => None
              case Some(t) =>
                PrependAll([Punctuation('{'), Word("path"), Punctuation(':'), Word(t.text)], Tokens(t.rest))
  {
    assert BEFORE_PATH + r == "{" + (" " + ("\"" + ("path" + ("\"" + (":" + (" " + ("\"" + r)))))));
    TokensKey("path", "\"" + r);
    TokensWord(r);
    if ReadString(r).Some? {
      var t := ReadString(r).value;
      var key := [Punctuation('{'), Word("path"), Punctuation(':')];
      PrependLast(key, Word(t.text), Tokens(t.rest));
      assert key + [Word(t.text)] == [Punctuation('{'), Word("path"), Punctuation(':'), Word(t.text)];
    }
  }

  lemma TokensPlainEntry(p: string, r: string)
    requires Plain(p)
    ensures Tokens(Entry(p) + r) == PrependAll(EntryTokens(p), Tokens(r))
  {
    var tail := " " + ("}" + r);
    assert Entry(p) + r == BEFORE_PATH + (p + ("\"" + tail));
    TokensBeforePath(p + ("\"" + tail));
    ReadPlain(p, tail);
    TokensSpace("}" + r);
    TokensPunctuation('}', r);
    var four := [Punctuation('{'), Word("path"), Punctuation(':'), Word(p)];
    PrependLast(four, Punctuation('}'), Tokens(r));
    assert four + [Punctuation('}')] == EntryTokens(p);
  }

  lemma TokensSeparator(r: string)
    ensures Tokens(SEPARATOR + r) == Prepend(Punctuation(','), Tokens(r))
  {
    assert SEPARATOR + r == "," + (" " + r);
    TokensPunctuation(',', " " + r);
    TokensSpace(r);
  }

  function ReadTail(s: string): Option<seq<string>> {
    match Tokens(s)
    case None => None
    case Some(ts) => ReadEntries(ts)
  }

  lemma TailOfLast(p: string)
    requires Plain(p)
    ensures ReadTail(Entry(p) + CLOSING) == Some([p])
  {
    hide Tokens;
    TokensPlainEntry(p, CLOSING);
    TokensClosing();
  }

  lemma TailOfFirst(p: string, more: string)
    requires Plain(p)
    ensures ReadTail(Entry(p) + (SEPARATOR + more)) == match ReadTail(more)
              case None => None
              case Some(paths) => Some([p] + paths)
  {
    hide Tokens;
    TokensPlainEntry(p, SEPARATOR + more);
    TokensSeparator(more);
    if Tokens(more).Some? {
      var us := Tokens(more).value;
      var ts := EntryTokens(p) + ([Punctuation(',')] + us);
      assert ts[..5] == EntryTokens(p) && ts[5..] == [Punctuation(',')] + us && ts[6..] == us;
      assert ts[5..] != [Punctuation(']'), Punctuation('}')] by { assert ts[5] == Punctuation(','); }
      assert Tokens(Entry(p) + (SEPARATOR + more)) == Some(ts);
    } else {
      assert Tokens(Entry(p) + (SEPARATOR + more)).None?;
    }
  }

  /** The array of a non-empty list reads back as the list exactly when all its paths are plain. */
  lemma {:induction false} EntriesReadBack(paths: seq<string>)
    requires paths != []
    ensures ReadTail(Entries(paths) + CLOSING) == Some(paths) <==> forall i :: 0 <= i < |paths| ==> Plain(paths[i])
  {
    hide ReadTail, Plain, Entry;
    var p := paths[0];
    var more := Entries(paths[1..]) + CLOSING;
    var rest := if |paths| == 1 then CLOSING else SEPARATOR + more;
    assert Entries(paths) + CLOSING == Entry(p) + rest;
    if !Plain(p) {
      FirstPathDiffers(p, rest);
    } else if |paths| == 1 {
      TailOfLast(p);
      assert paths == [p];
    } else {
      TailOfFirst(p, more);
      EntriesReadBack(paths[1..]);
      assert paths == [p] + paths[1..];
    }
  }

  lemma FirstPathDiffers(p: string, rest: string)
    requires !Plain(p)
    ensures var r := ReadTail(Entry(p) + rest);
            r.Some? ==> r.value != [] && r.value[0] != p
  {
    var raw := p + ("\"" + (" }" + rest));
    assert Entry(p) + rest == BEFORE_PATH + raw;
    TokensBeforePath(raw);
    ReadBackIsPlain(p, " }" + rest);
    var r := ReadTail(Entry(p) + rest);
    if r.Some? {
      var ts := Tokens(Entry(p) + rest).value;
      assert ts[3] == Word(ReadString(raw).value.text);
    }
  }

  /** The body of a list determines the list exactly when every path is free of quotes, backslashes
      and control characters; this covers the empty list. */
  lemma BodyReadsBack(paths: seq<string>)
    ensures ReadBody(Body(paths)) == Some(paths) <==> forall i :: 0 <= i < |paths| ==> Plain(paths[i])
  {
    var s := Entries(paths) + CLOSING;
    assert Body(paths) == OPENING + s;
    TokensOpening(s);
    if paths == [] {
      assert s == CLOSING;
      TokensClosing();
    } else {
      EntriesReadBack(paths);
      if Tokens(s).Some? {
        var us := Tokens(s).value;
        var ts := ENTRIES_TOKENS + us;
        assert ts[..4] == ENTRIES_TOKENS && ts[4..] == us;
        NotClosing(paths, s);
      }
    }
  }

  lemma NotClosing(paths: seq<string>, s: string)
    requires paths != [] && s == Entries(paths) + CLOSING && Tokens(s).Some?
    ensures Tokens(s).value != [Punctuation(']'), Punctuation('}')]
  {
    var e := Entry(paths[0]);
    assert e[0] == '{' && Entries(paths)[0] == '{';
    assert s == ['{'] + s[1..];
    TokensPunctuation('{', s[1..]);
    assert Tokens(s).value[0] == Punctuation('{');
  }
}
