/**
 Telegram HTML to plain text and entities with UTF-16 offsets.

 The scanner keeps the text emitted so far, a running count of its UTF-16 code
 units, the stack of open tags and the entities of the tags closed so far.
 */
module HtmlEntities {
  import opened Wrappers

  /** Two library functions of the host language that the scanner calls, and the
      table of the tags it maps to entity types. */
  datatype Library = Library(lower: string -> string, unescape: string -> string, tags: map<string, string>)

  datatype Result<+T> = Ok(value: T) | Raised

  datatype Attr = NoAttr | Url(url: string) | EmojiId(id: string) | UnixTime(time: int)
  datatype Entity = Entity(kind: string, offset: int, length: int, attr: Attr)
  datatype Open = Open(tag: string, kind: string, offset: int, attr: Attr)
  datatype State = State(text: string, pos: int, stack: seq<Open>, entities: seq<Entity>)

  const TAG_MAP: map<string, string> := map[
    "b" := "bold", "strong" := "bold", "i" := "italic", "em" := "italic",
    "code" := "code", "pre" := "pre",
    "s" := "strikethrough", "strike" := "strikethrough", "del" := "strikethrough",
    "u" := "underline", "ins" := "underline",
    "tg-spoiler" := "spoiler", "blockquote" := "blockquote"]

  const INITIAL: State := State("", 0, [], [])

  // ----------------------------------------------------------------- UTF-16

  /** The code units of one character (section 2.1 of RFC 2781). */
  function CharUnits(c: char): (units: seq<int>)
    ensures 1 <= |units| <= 2
  {
    var u := c as int;
    if u < 0x10000 then [u]
    else [0xD800 + (u - 0x10000) / 0x400, 0xDC00 + (u - 0x10000) % 0x400]
  }

  function Encode(s: string): seq<int> {
    if s == [] then [] else CharUnits(s[0]) + Encode(s[1..])
  }

  function Utf16Len(s: string): nat { |Encode(s)| }

  // -------------------------------------------------------- string functions

  /** What the host language's strings call white space. */
  predicate IsSpace(c: char) {
    var u := c as int;
    0x09 <= u <= 0x0D || 0x1C <= u <= 0x20 || u == 0x85 || u == 0xA0 || u == 0x1680 || 0x2000 <= u <= 0x200A
    || u == 0x2028 || u == 0x2029 || u == 0x202F || u == 0x205F || u == 0x3000
  }

  function Find(s: string, c: char): (r: Option<nat>)
    ensures r.Some? ==> r.value < |s| && s[r.value] == c
  {
    if s == [] then None
    else if s[0] == c then Some(0)
    else match Find(s[1..], c) case None => None case Some(k) => Some(k + 1)
  }

  function SkipSpaces(s: string): (r: string)
    ensures |r| <= |s|
  {
    if s != [] && IsSpace(s[0]) then SkipSpaces(s[1..]) else s
  }

  function DropTrailing(s: string): string {
    if s != [] && IsSpace(s[|s| - 1]) then DropTrailing(s[..|s| - 1]) else s
  }

  function Strip(s: string): string { DropTrailing(SkipSpaces(s)) }

  function TakeWord(s: string): string {
    if s == [] || IsSpace(s[0]) then [] else [s[0]] + TakeWord(s[1..])
  }

  /** Case-insensitive equality of a character with a lower-case pattern letter. */
  predicate Folds(c: char, p: char) {
    || c == p
    || ('a' <= p <= 'z' && c as int == p as int - 32)
    || (p == 'i' && (c as int == 0x130 || c as int == 0x131))
  }

  predicate FoldsPrefix(s: string, p: string) {
    |p| <= |s| && forall i :: 0 <= i < |p| ==> Folds(s[i], p[i])
  }

  predicate IsQuote(c: char) { c == '"' || c == '\'' }

  function UpToQuote(s: string): (r: string)
    ensures |r| <= |s|
  {
    if s == [] || IsQuote(s[0]) then [] else [s[0]] + UpToQuote(s[1..])
  }

  /** Matches name = "value" at the start of s. */
  function MatchAttr(s: string, name: string): Option<string> {
    if !FoldsPrefix(s, name) then None else
    var t := SkipSpaces(s[|name|..]);
    if t == [] || t[0] != '=' then None else
    var v := SkipSpaces(t[1..]);
    if v == [] || !IsQuote(v[0]) then None else
    var value := UpToQuote(v[1..]);
    if |value| == |v| - 1 then None else Some(value)
  }

  /** The value at the first match anywhere in s, or nothing. */
  function SearchAttr(s: string, name: string): string {
    if s == [] then []
    else match MatchAttr(s, name) case Some(v) => v case None => SearchAttr(s[1..], name)
  }

  // -------------------------------------------------------------- the scanner

  function Emit(st: State, fragment: string): State {
    st.(text := st.text + fragment, pos := st.pos + Utf16Len(fragment))
  }

  /** Index of the innermost open tag of that name. */
  function Innermost(stack: seq<Open>, name: string): (r: Option<nat>)
    ensures r.Some? ==> r.value < |stack| && stack[r.value].tag == name
    ensures r.Some? ==> forall k :: r.value < k < |stack| ==> stack[k].tag != name
    ensures r.None? ==> forall k :: 0 <= k < |stack| ==> stack[k].tag != name
  {
    if stack == [] then None
    else if stack[|stack| - 1].tag == name then Some(|stack| - 1)
    else Innermost(stack[..|stack| - 1], name)
  }

  function Pop(st: State, k: nat): State
    requires k < |st.stack|
  {
    var o := st.stack[k];
    st.(stack := st.stack[..k] + st.stack[k + 1..],
        entities := st.entities + [Entity(o.kind, o.offset, st.pos - o.offset, o.attr)])
  }

  function CloseTag(st: State, name: string): State {
    match Innermost(st.stack, name) case None => st case Some(k) => Pop(st, k)
  }

  function TagName(lib: Library, content: string): string {
    lib.lower(Strip(match Find(content, ' ') case None => content case Some(k) => content[..k]))
  }

  /** The stack entry of an opening tag, if the tag is one the scanner knows. */
  function NewTag(lib: Library, content: string, pos: int): (r: Option<Open>)
    ensures r.Some? ==> r.value.offset == pos
  {
    var name := TagName(lib, content);
    if name == "a" then
      var url := SearchAttr(content, "href");
      Some(Open("a", "text_link", pos, if url == "" then NoAttr else Url(url)))
    else if name == "tg-emoji" then
      var id := SearchAttr(content, "emoji-id");
      Some(Open("tg-emoji", "custom_emoji", pos, if id == "" then NoAttr else EmojiId(id)))
    else if name in lib.tags then Some(Open(name, lib.tags[name], pos, NoAttr))
    else None
  }

  function OpenTag(lib: Library, st: State, content: string): State {
    match NewTag(lib, content, st.pos) case None => st case Some(o) => st.(stack := st.stack + [o])
  }

  function ClosingName(lib: Library, content: string): string
    requires content != []
  {
    TakeWord(SkipSpaces(lib.lower(Strip(content[1..]))))
  }

  /** What one round of the scanner sees at the start of the remaining input. */
  datatype Token =
    | Char
    | Closing(name: string, size: nat)
    | Opening(content: string, size: nat)
    | Reference(text: string, size: nat)

  function Look(lib: Library, s: string): (t: Token)
    requires s != []
    ensures t.Char? || 0 < t.size <= |s|
  {
    if s[0] == '<' then
      match Find(s, '>')
      case None => Char
      case Some(k) =>
        var content := s[1..k];
        if content != [] && content[0] == '/' then Closing(ClosingName(lib, content), k + 1)
        else Opening(content, k + 1)
    else if s[0] == '&' then
      match Find(s, ';')
      case None => Char
      case Some(k) => if k < 8 then Reference(lib.unescape(s[..k + 1]), k + 1) else Char
    else Char
  }

  function Scan(lib: Library, st: State, s: string): Result<State>
    decreases |s|
  {
    if s == [] then Ok(st) else
    match Look(lib, s)
    case Char => Scan(lib, Emit(st, [s[0]]), s[1..])
    case Closing(name, size) => if name == [] then Raised else Scan(lib, CloseTag(st, name), s[size..])
    case Opening(content, size) => Scan(lib, OpenTag(lib, st, content), s[size..])
    case Reference(text, size) => Scan(lib, Emit(st, text), s[size..])
  }

  // ----------------------------------------------------- what a match is

  predicate AllSpaces(s: string) { forall i :: 0 <= i < |s| ==> IsSpace(s[i]) }

  predicate NoQuotes(s: string) { forall i :: 0 <= i < |s| ==> s[i] != '"' && s[i] != '\'' }

  lemma {:induction false} SkipsSpaces(pad: string, s: string)
    requires AllSpaces(pad) && (s != [] ==> !IsSpace(s[0]))
    ensures SkipSpaces(pad + s) == s
  {
    if pad == [] {
      assert pad + s == s;
    } else {
      assert (pad + s)[0] == pad[0] && (pad + s)[1..] == pad[1..] + s;
      SkipsSpaces(pad[1..], s);
    }
  }

  lemma {:induction false} SplitSpaces(s: string) returns (pad: string)
    ensures AllSpaces(pad) && s == pad + SkipSpaces(s)
    ensures SkipSpaces(s) != [] ==> !IsSpace(SkipSpaces(s)[0])
  {
    hide IsSpace;
    if s != [] && IsSpace(s[0]) {
      var more := SplitSpaces(s[1..]);
      pad := [s[0]] + more;
      assert pad + SkipSpaces(s) == [s[0]] + (more + SkipSpaces(s[1..])) == [s[0]] + s[1..] == s;
    } else {
      pad := [];
    }
  }

  lemma {:induction false} QuoteEnds(value: string, q: char, rest: string)
    requires NoQuotes(value) && IsQuote(q)
    ensures UpToQuote(value + [q] + rest) == value
  {
    var s := value + [q] + rest;
    if value != [] {
      assert s[0] == value[0] && s[1..] == value[1..] + [q] + rest;
      QuoteEnds(value[1..], q, rest);
    }
  }

  lemma {:induction false} SplitQuote(s: string)
    ensures var value := UpToQuote(s);
      NoQuotes(value) && s[..|value|] == value && (|value| < |s| ==> IsQuote(s[|value|]))
  {
    if s != [] && !IsQuote(s[0]) { SplitQuote(s[1..]); }
  }

  function LowerAscii(c: char): char { if 'A' <= c <= 'Z' then (c as int + 32) as char else c }

  /** The letter p in any case; dotted capital and dotless small i count as i. */
  predicate InAnyCase(c: char, p: char) {
    c == p || LowerAscii(c) == p || (p == 'i' && c in "\U{130}\U{131}")
  }

  /** The text that an attribute is looked for in, taken apart as the pattern reads it:
      the name in any case, spaces, an equals sign, spaces, a quote of either kind, the
      value without quotes, and a quote again. */
  ghost predicate IsMatch(s: string, name: string, value: string,
                          pad: string, pad': string, q: char, q': char, rest: string)
  {
    && |name| <= |s| && (forall i :: 0 <= i < |name| ==> InAnyCase(s[i], name[i]))
    && s[|name|..] == pad + ("=" + (pad' + ([q] + (value + [q'] + rest))))
    && AllSpaces(pad) && AllSpaces(pad') && NoQuotes(value)
    && (q == '"' || q == '\'') && (q' == '"' || q' == '\'')
  }

  lemma QuotesAreNotSpaces(c: char)
    requires IsQuote(c) || c == '='
    ensures !IsSpace(c)
  {
  }

  lemma FoldsInAnyCase()
    ensures forall c, p :: Folds(c, p) <==> InAnyCase(c, p)
  {
  }

  /** Whatever can be read that way is matched, with that value. */
  lemma MatchIsFound(s: string, name: string, value: string,
                     pad: string, pad': string, q: char, q': char, rest: string)
    requires IsMatch(s, name, value, pad, pad', q, q', rest)
    ensures MatchAttr(s, name) == Some(value)
  {
    hide SkipSpaces, UpToQuote, IsSpace, Folds, InAnyCase;
    FoldsInAnyCase();
    var tail := value + [q'] + rest;
    var quoted := [q] + tail;
    QuotesAreNotSpaces('=');
    QuotesAreNotSpaces(q);
    SkipsSpaces(pad, "=" + (pad' + quoted));
    assert ("=" + (pad' + quoted))[1..] == pad' + quoted;
    SkipsSpaces(pad', quoted);
    assert quoted[1..] == tail;
    QuoteEnds(value, q', rest);
  }

  /** And nothing else is matched. */
  lemma MatchIsRead(s: string, name: string) returns (pad: string, pad': string, q: char, q': char, rest: string)
    requires MatchAttr(s, name).Some?
    ensures IsMatch(s, name, MatchAttr(s, name).value, pad, pad', q, q', rest)
  {
    hide SkipSpaces, UpToQuote, IsSpace, Folds, InAnyCase;
    FoldsInAnyCase();
    var after := s[|name|..];
    var t := SkipSpaces(after);
    pad := SplitSpaces(after);
    var v := SkipSpaces(t[1..]);
    pad' := SplitSpaces(t[1..]);
    q := v[0];
    var value := UpToQuote(v[1..]);
    SplitQuote(v[1..]);
    q', rest := v[1..][|value|], v[1..][|value| + 1..];
    assert v[1..] == value + [q'] + rest;
    assert v == [q] + v[1..] && t == "=" + t[1..];
  }

  /** The search takes the first place where the pattern matches. */
  lemma {:induction false} SearchIsFirstMatch(s: string, name: string, k: nat)
    requires k < |s| && MatchAttr(s[k..], name).Some?
    requires forall i :: 0 <= i < k ==> MatchAttr(s[i..], name).None?
    ensures SearchAttr(s, name) == MatchAttr(s[k..], name).value
  {
    hide MatchAttr;
    assert s[0..] == s;
    if k > 0 {
      assert MatchAttr(s[0..], name).None?;
      assert forall i :: 0 <= i < k - 1 ==> s[1..][i..] == s[i + 1..];
      assert s[1..][k - 1..] == s[k..];
      SearchIsFirstMatch(s[1..], name, k - 1);
    }
  }

  lemma {:induction false} SearchWithoutMatch(s: string, name: string)
    requires forall i :: 0 <= i < |s| ==> MatchAttr(s[i..], name).None?
    ensures SearchAttr(s, name) == ""
  {
    hide MatchAttr;
    if s != [] {
      assert s[0..] == s;
      assert forall i :: 0 <= i < |s| - 1 ==> s[1..][i..] == s[i + 1..];
      SearchWithoutMatch(s[1..], name);
    }
  }

  // ---------------------------------------------------------- UTF-16 lemmas

  lemma {:induction false} EncodeConcat(a: string, b: string)
    ensures Encode(a + b) == Encode(a) + Encode(b)
  {
    hide CharUnits;
    if a == [] {
      assert a + b == b;
    } else {
      EncodeConcat(a[1..], b);
      assert (a + b)[0] == a[0] && (a + b)[1..] == a[1..] + b;
    }
  }

  /** Characters outside the basic plane, which take two units each. */
  function Astral(s: string): nat {
    if s == [] then 0 else (if s[0] as int >= 0x10000 then 1 else 0) + Astral(s[1..])
  }

  /** The length in code units: one for each character, one more for each astral one. */
  lemma {:induction false} Utf16LenExactly(s: string)
    ensures Utf16Len(s) == |s| + Astral(s)
  {
    if s != [] { Utf16LenExactly(s[1..]); }
  }

  lemma {:induction false} UnitsFit(s: string)
    ensures forall k :: 0 <= k < |Encode(s)| ==> 0 <= Encode(s)[k] <= 0xFFFF
  {
    if s != [] { UnitsFit(s[1..]); }
  }

  predicate IsHigh(u: int) { 0xD800 <= u < 0xDC00 }

  predicate IsLow(u: int) { 0xDC00 <= u < 0xE000 }

  /** Decoding (section 2.2 of RFC 2781); an unpaired surrogate is an error. */
  function Decode(units: seq<int>): Option<string> {
    if units == [] then Some("")
    else if IsHigh(units[0]) then
      if |units| == 1 || !IsLow(units[1]) then None else
      match Decode(units[2..])
      case None => None
      case Some(s) => Some([((units[0] - 0xD800) * 0x400 + (units[1] - 0xDC00) + 0x10000) as char] + s)
    else if IsLow(units[0]) || !(0 <= units[0] < 0x10000) then None
    else match Decode(units[1..]) case None => None case Some(s) => Some([units[0] as char] + s)
  }

  lemma SplitJoins(v: int)
    requires 0 <= v < 0x100000
    ensures 0 <= v / 0x400 < 0x400 && 0 <= v % 0x400 < 0x400
    ensures (v / 0x400) * 0x400 + v % 0x400 == v
  {
  }

  lemma DecodePair(hi: int, lo: int, c: char, rest: seq<int>)
    requires IsHigh(hi) && IsLow(lo) && (hi - 0xD800) * 0x400 + (lo - 0xDC00) + 0x10000 == c as int
    requires Decode(rest).Some?
    ensures Decode([hi, lo] + rest) == Some([c] + Decode(rest).value)
  {
    var units := [hi, lo] + rest;
    assert units[0] == hi && units[1] == lo && units[2..] == rest;
  }

  lemma DecodeOne(c: char, rest: seq<int>)
    requires Decode(rest).Some?
    ensures Decode(CharUnits(c) + rest) == Some([c] + Decode(rest).value)
  {
    var u := c as int;
    if u < 0x10000 {
      assert (CharUnits(c) + rest)[1..] == rest;
    } else {
      hide Decode;
      var hi, lo := 0xD800 + (u - 0x10000) / 0x400, 0xDC00 + (u - 0x10000) % 0x400;
      SplitJoins(u - 0x10000);
      assert CharUnits(c) == [hi, lo];
      DecodePair(hi, lo, c, rest);
    }
  }

  /** The code units determine the text: decoding gives it back. */
  lemma {:induction false} DecodeUndoesEncode(s: string)
    ensures Decode(Encode(s)) == Some(s)
  {
    hide CharUnits, Decode;
    if s == [] {
      DecodeNothing();
    } else {
      DecodeUndoesEncode(s[1..]);
      DecodeOne(s[0], Encode(s[1..]));
      assert [s[0]] + s[1..] == s;
    }
  }

  lemma DecodeNothing()
    ensures Decode([]) == Some("")
  {
  }

  // ------------------------------------------------------------ what is kept

  function End(e: Entity): int { e.offset + e.length }

  ghost predicate StackInOrder(stack: seq<Open>, pos: int) {
    && (forall i :: 0 <= i < |stack| ==> 0 <= stack[i].offset <= pos)
    && (forall i, j :: 0 <= i < j < |stack| ==> stack[i].offset <= stack[j].offset)
  }

  ghost predicate EntitiesInside(es: seq<Entity>, pos: int) {
    && (forall i :: 0 <= i < |es| ==> 0 <= es[i].offset && 0 <= es[i].length && End(es[i]) <= pos)
    && (forall i, j :: 0 <= i < j < |es| ==> End(es[i]) <= End(es[j]))
  }

  /** The counter is the length of the text, open tags are in order of their
      offsets, and closed entities lie inside the text in order of their ends. */
  ghost predicate Bounded(st: State) {
    st.pos == Utf16Len(st.text) && StackInOrder(st.stack, st.pos) && EntitiesInside(st.entities, st.pos)
  }

  /** Closed entities are pairwise nested or disjoint, also with the open tags. */
  ghost predicate Laminar(st: State) {
    && (forall i, j :: 0 <= i < j < |st.entities| ==>
          st.entities[j].offset <= st.entities[i].offset || End(st.entities[i]) <= st.entities[j].offset)
    && (forall i, k :: 0 <= i < |st.entities| && 0 <= k < |st.stack| ==>
          st.stack[k].offset <= st.entities[i].offset || End(st.entities[i]) <= st.stack[k].offset)
  }

  lemma EmitKeepsBounds(st: State, fragment: string)
    requires Bounded(st)
    ensures Bounded(Emit(st, fragment))
    ensures Laminar(st) ==> Laminar(Emit(st, fragment))
  {
    EncodeConcat(st.text, fragment);
  }

  lemma PopKeepsBounds(st: State, k: nat)
    requires Bounded(st) && k < |st.stack|
    ensures Bounded(Pop(st, k))
  {
    var left := Pop(st, k).stack;
    forall i | 0 <= i < |left| ensures left[i] == st.stack[if i < k then i else i + 1] {}
    forall i, j | 0 <= i < j < |left| ensures left[i].offset <= left[j].offset {
      assert left[i] == st.stack[if i < k then i else i + 1];
      assert left[j] == st.stack[if j < k then j else j + 1];
    }
  }

  lemma PopTopKeepsLaminar(st: State)
    requires Bounded(st) && Laminar(st) && st.stack != []
    ensures Laminar(Pop(st, |st.stack| - 1))
  {
    var after := Pop(st, |st.stack| - 1);
    assert after.stack == st.stack[..|st.stack| - 1];
  }

  lemma PushKeepsBounds(st: State, o: Open)
    requires Bounded(st) && o.offset == st.pos
    ensures Bounded(st.(stack := st.stack + [o]))
    ensures Laminar(st) ==> Laminar(st.(stack := st.stack + [o]))
  {
    var after := st.stack + [o];
    assert StackInOrder(after, st.pos);
  }

  lemma CloseKeepsBounds(st: State, name: string)
    requires Bounded(st)
    ensures Bounded(CloseTag(st, name))
  {
    var k := Innermost(st.stack, name);
    if k.Some? { PopKeepsBounds(st, k.value); }
  }

  lemma OpenKeepsBounds(lib: Library, st: State, content: string)
    requires Bounded(st)
    ensures Bounded(OpenTag(lib, st, content))
    ensures Laminar(st) ==> Laminar(OpenTag(lib, st, content))
  {
    var o := NewTag(lib, content, st.pos);
    if o.Some? { PushKeepsBounds(st, o.value); }
  }

  /** Main result: whatever the input, unless the scan raises, every entity lies
      inside the text that was emitted and the counter is its UTF-16 length. */
  lemma {:induction false} ScanIsBounded(lib: Library, st: State, s: string)
    requires Bounded(st) && Scan(lib, st, s).Ok?
    ensures Bounded(Scan(lib, st, s).value)
    decreases |s|
  {
    if s != [] {
      match Look(lib, s)
      case Char =>
        EmitKeepsBounds(st, [s[0]]);
        ScanIsBounded(lib, Emit(st, [s[0]]), s[1..]);
      case Closing(name, size) =>
        CloseKeepsBounds(st, name);
        ScanIsBounded(lib, CloseTag(st, name), s[size..]);
      case Opening(content, size) =>
        OpenKeepsBounds(lib, st, content);
        ScanIsBounded(lib, OpenTag(lib, st, content), s[size..]);
      case Reference(text, size) =>
        EmitKeepsBounds(st, text);
        ScanIsBounded(lib, Emit(st, text), s[size..]);
    }
  }

  /** Every closing tag that closes anything closes the tag opened last. */
  predicate WellNested(lib: Library, st: State, s: string)
    decreases |s|
  {
    s == [] ||
    match Look(lib, s)
    case Char => WellNested(lib, Emit(st, [s[0]]), s[1..])
    case Closing(name, size) =>
      (Innermost(st.stack, name).Some? ==> Innermost(st.stack, name) == Some(|st.stack| - 1))
      && WellNested(lib, CloseTag(st, name), s[size..])
    case Opening(content, size) => WellNested(lib, OpenTag(lib, st, content), s[size..])
    case Reference(text, size) => WellNested(lib, Emit(st, text), s[size..])
  }

  lemma CloseTopKeepsLaminar(st: State, name: string)
    requires Bounded(st) && Laminar(st)
    requires Innermost(st.stack, name).Some? ==> Innermost(st.stack, name) == Some(|st.stack| - 1)
    ensures Laminar(CloseTag(st, name))
  {
    hide Laminar, Bounded;
    if Innermost(st.stack, name).Some? { PopTopKeepsLaminar(st); }
  }

  /** Well-nested input gives entities that are pairwise nested or disjoint. */
  lemma {:induction false} WellNestedIsLaminar(lib: Library, st: State, s: string)
    requires Bounded(st) && Laminar(st) && Scan(lib, st, s).Ok? && WellNested(lib, st, s)
    ensures Laminar(Scan(lib, st, s).value)
    decreases |s|
  {
    hide Bounded, Laminar, Emit, CloseTag, OpenTag, Look, Innermost;
    if s != [] {
      match Look(lib, s)
      case Char =>
        EmitKeepsBounds(st, [s[0]]);
        WellNestedIsLaminar(lib, Emit(st, [s[0]]), s[1..]);
      case Closing(name, size) =>
        CloseKeepsBounds(st, name);
        CloseTopKeepsLaminar(st, name);
        WellNestedIsLaminar(lib, CloseTag(st, name), s[size..]);
      case Opening(content, size) =>
        OpenKeepsBounds(lib, st, content);
        WellNestedIsLaminar(lib, OpenTag(lib, st, content), s[size..]);
      case Reference(text, size) =>
        EmitKeepsBounds(st, text);
        WellNestedIsLaminar(lib, Emit(st, text), s[size..]);
    }
  }

  /** Some closing tag the scanner reaches has no name, as in an empty one. */
  predicate ReachesNameless(lib: Library, s: string)
    decreases |s|
  {
    s != [] &&
    match Look(lib, s)
    case Char => ReachesNameless(lib, s[1..])
    case Closing(name, size) => name == [] || ReachesNameless(lib, s[size..])
    case Opening(_, size) => ReachesNameless(lib, s[size..])
    case Reference(_, size) => ReachesNameless(lib, s[size..])
  }

  lemma {:induction false} RaisesExactly(lib: Library, st: State, s: string)
    ensures Scan(lib, st, s).Raised? <==> ReachesNameless(lib, s)
    decreases |s|
  {
    if s != [] {
      match Look(lib, s)
      case Char => RaisesExactly(lib, Emit(st, [s[0]]), s[1..]);
      case Closing(name, size) => RaisesExactly(lib, CloseTag(st, name), s[size..]);
      case Opening(content, size) => RaisesExactly(lib, OpenTag(lib, st, content), s[size..]);
      case Reference(text, size) => RaisesExactly(lib, Emit(st, text), s[size..]);
    }
  }

  /** For one, an empty closing tag. */
  lemma EmptyClosingTagRaises(lib: Library)
    requires lib.lower("") == ""
    ensures Scan(lib, INITIAL, "</>") == Raised && ReachesNameless(lib, "</>")
  {
    assert Find("</>", '>') == Some(2);
    RaisesExactly(lib, INITIAL, "</>");
  }

  // ------------------------------------------------------------- the printer

  datatype Element = Styled(name: string) | Link(url: string) | CustomEmoji(id: string)

  /** A sequence of trees: text or an element with children, then what follows. */
  datatype Forest = Nothing | Text(text: string, next: Forest) | Elem(element: Element, children: Forest, next: Forest)

  function EscapeChar(c: char): string {
    if c == '&' then "&amp;" else if c == '<' then "&lt;" else if c == '>' then "&gt;" else [c]
  }

  function Escape(s: string): string {
    if s == [] then [] else EscapeChar(s[0]) + Escape(s[1..])
  }

  function TagOf(e: Element): string {
    match e case Styled(name) => name case Link(_) => "a" case CustomEmoji(_) => "tg-emoji"
  }

  function AttrText(e: Element): string {
    match e
    case Styled(_) => ""
    case Link(url) => "href=\"" + url + "\""
    case CustomEmoji(id) => "emoji-id=\"" + id + "\""
  }

  function OpeningContent(e: Element): string {
    if e.Styled? then TagOf(e) else TagOf(e) + " " + AttrText(e)
  }

  function StartTag(e: Element): string { "<" + OpeningContent(e) + ">" }

  function EndTag(e: Element): string { "</" + TagOf(e) + ">" }

  function Print(f: Forest): string {
    match f
    case Nothing => ""
    case Text(t, next) => Escape(t) + Print(next)
    case Elem(e, children, next) => StartTag(e) + Print(children) + EndTag(e) + Print(next)
  }

  function Plain(f: Forest): string {
    match f
    case Nothing => ""
    case Text(t, next) => t + Plain(next)
    case Elem(_, children, next) => Plain(children) + Plain(next)
  }

  function EntityOf(lib: Library, e: Element, offset: int, length: int): Entity {
    match e
    case Styled(name) => Entity(if name in lib.tags then lib.tags[name] else "", offset, length, NoAttr)
    case Link(url) => Entity("text_link", offset, length, if url == "" then NoAttr else Url(url))
    case CustomEmoji(id) => Entity("custom_emoji", offset, length, if id == "" then NoAttr else EmojiId(id))
  }

  /** The entities of a forest whose text starts at `base`, in closing order. */
  function EntitiesOf(lib: Library, f: Forest, base: int): seq<Entity> {
    match f
    case Nothing => []
    case Text(t, next) => EntitiesOf(lib, next, base + Utf16Len(t))
    case Elem(e, children, next) =>
      var size := Utf16Len(Plain(children));
      EntitiesOf(lib, children, base) + [EntityOf(lib, e, base, size)] + EntitiesOf(lib, next, base + size)
  }

  predicate Attributable(s: string) {
    forall i :: 0 <= i < |s| ==> !IsQuote(s[i]) && s[i] != '>'
  }

  /** The elements that a message can hold: mapped tags, and links and emoji whose
      attribute fits between quotes. */
  predicate Allowed(lib: Library, e: Element) {
    match e
    case Styled(name) => name in lib.tags
    case Link(url) => Attributable(url)
    case CustomEmoji(id) => Attributable(id)
  }

  predicate Printable(lib: Library, f: Forest) {
    match f
    case Nothing => true
    case Text(_, next) => Printable(lib, next)
    case Elem(e, children, next) => Allowed(lib, e) && Printable(lib, children) && Printable(lib, next)
  }

  /** A name the scanner takes as it is. */
  predicate IsName(s: string) {
    s != [] && forall i :: 0 <= i < |s| ==> !IsSpace(s[i]) && s[i] != '>' && s[i] != '/'
  }

  /** What the round trip needs of the library: lower-case tag names stay as they
      are, and the three character references are resolved. */
  ghost predicate Sane(lib: Library) {
    && (forall name :: name in lib.tags ==> IsName(name) && lib.lower(name) == name)
    && "a" !in lib.tags && "tg-emoji" !in lib.tags
    && lib.lower("a") == "a" && lib.lower("tg-emoji") == "tg-emoji"
    && lib.unescape("&amp;") == "&" && lib.unescape("&lt;") == "<" && lib.unescape("&gt;") == ">"
  }

  // ------------------------------------------------------ scanning the printed

  lemma {:induction false} FindFirst(a: string, c: char, b: string)
    requires c !in a
    ensures Find(a + [c] + b, c) == Some(|a|)
  {
    var s := a + [c] + b;
    if a != [] {
      assert s[0] == a[0] && s[1..] == a[1..] + [c] + b;
      FindFirst(a[1..], c, b);
    }
  }

  lemma {:induction false} FindNone(s: string, c: char)
    requires c !in s
    ensures Find(s, c) == None
  {
    if s != [] { FindNone(s[1..], c); }
  }

  lemma {:induction false} WordOfName(s: string)
    requires forall i :: 0 <= i < |s| ==> !IsSpace(s[i])
    ensures TakeWord(s) == s
  {
    if s != [] { WordOfName(s[1..]); }
  }

  lemma NameReads(lib: Library, name: string)
    requires IsName(name) && lib.lower(name) == name
    ensures Strip(name) == name && ClosingName(lib, "/" + name) == name
    ensures TagName(lib, name) == name
    ensures forall attr: string :: TagName(lib, name + " " + attr) == name
  {
    WordOfName(name);
    FindNone(name, ' ');
    assert ("/" + name)[1..] == name;
    forall attr: string ensures TagName(lib, name + " " + attr) == name {
      FindFirst(name, ' ', attr);
      assert (name + " " + attr)[..|name|] == name;
    }
  }

  /** The name of an opening tag, in any case as the library lowers it, ends at the first
      blank; line breaks and other white space around it do not matter. */
  lemma OpeningInAnyCase(lib: Library, name: string, pad: string, pad': string, attr: string)
    requires IsName(name) && AllSpaces(pad) && AllSpaces(pad') && ' ' !in pad && ' ' !in pad'
    ensures var content := pad + name + pad';
      TagName(lib, content) == TagName(lib, content + " " + attr) == lib.lower(name)
  {
    hide IsSpace, DropTrailing, SkipSpaces, Strip;
    var content := pad + name + pad';
    StripsTo(pad, name, pad');
    NoBlank(name);
    FindNone(content, ' ');
    FindFirst(content, ' ', attr);
    assert content + " " + attr == content + [' '] + attr;
    assert (content + " " + attr)[..|content|] == content;
  }

  /** A closing name may have spaces around it. */
  lemma ClosingInAnyCase(lib: Library, name: string, pad: string, pad': string)
    requires IsName(name) && IsName(lib.lower(name)) && AllSpaces(pad) && AllSpaces(pad')
    ensures ClosingName(lib, "/" + pad + name + pad') == lib.lower(name)
  {
    hide IsSpace, DropTrailing, SkipSpaces, TakeWord, Strip;
    StripsTo(pad, name, pad');
    var content := "/" + pad + name + pad';
    assert content[1..] == pad + name + pad';
    var lowered := lib.lower(name);
    WordOfName(lowered);
    SkipsSpaces("", lowered);
    assert "" + lowered == lowered;
  }

  lemma NoBlank(name: string)
    requires IsName(name)
    ensures ' ' !in name
  {
  }

  lemma StripsTo(pad: string, name: string, pad': string)
    requires AllSpaces(pad) && AllSpaces(pad') && IsName(name)
    ensures Strip(pad + name + pad') == name
  {
    hide IsSpace;
    assert pad + name + pad' == pad + (name + pad');
    SkipsSpaces(pad, name + pad');
    DropsTrailing(name, pad');
  }

  lemma {:induction false} DropsTrailing(name: string, pad: string)
    requires AllSpaces(pad) && IsName(name)
    ensures DropTrailing(name + pad) == name
  {
    hide IsSpace;
    if pad == [] {
      assert name + pad == name;
    } else {
      var m := |pad| - 1;
      assert (name + pad)[..|name + pad| - 1] == name + pad[..m] && (name + pad)[|name + pad| - 1] == pad[m];
      DropsTrailing(name, pad[..m]);
    }
  }

  lemma AttrHasNoAngle(e: Element)
    requires e.Link? ==> Attributable(e.url)
    requires e.CustomEmoji? ==> Attributable(e.id)
    ensures '>' !in AttrText(e)
  {
    if e.Link? {
      var s := "href=\"" + e.url;
      assert '>' !in s;
    } else if e.CustomEmoji? {
      var s := "emoji-id=\"" + e.id;
      assert '>' !in s;
    }
  }

  lemma TagReads(lib: Library, e: Element)
    requires Sane(lib) && Allowed(lib, e)
    ensures IsName(TagOf(e)) && lib.lower(TagOf(e)) == TagOf(e)
    ensures '>' !in OpeningContent(e) && OpeningContent(e) != [] && OpeningContent(e)[0] == TagOf(e)[0]
  {
    hide AttrText;
    AttrHasNoAngle(e);
    if !e.Styled? {
      assert OpeningContent(e)[0] == TagOf(e)[0];
      assert '>' !in TagOf(e) + " ";
    }
  }

  lemma {:induction false} ValueUpToQuote(value: string, rest: string)
    requires Attributable(value)
    ensures UpToQuote(value + "\"" + rest) == value
  {
    var s := value + "\"" + rest;
    if value != [] {
      assert s[1..] == value[1..] + "\"" + rest;
      ValueUpToQuote(value[1..], rest);
    }
  }

  lemma AttrMatches(name: string, value: string)
    requires Attributable(value)
    requires forall i :: 0 <= i < |name| ==> Folds(name[i], name[i])
    ensures MatchAttr(name + "=\"" + value + "\"", name) == Some(value)
  {
    var s := name + "=\"" + value + "\"";
    var t := s[|name|..];
    assert t == "=\"" + value + "\"";
    assert t[1..][1..] == value + "\"" + "";
    ValueUpToQuote(value, "");
    assert FoldsPrefix(s, name);
    assert SkipSpaces(t) == t && SkipSpaces(t[1..]) == t[1..];
  }

  lemma {:induction false} SearchSkips(before: string, s: string, name: string)
    requires MatchAttr(s, name).Some? && s != []
    requires forall i :: 0 <= i < |before| ==> MatchAttr((before + s)[i..], name).None?
    ensures SearchAttr(before + s, name) == MatchAttr(s, name).value
  {
    if before == [] {
      assert before + s == s;
    } else {
      assert (before + s)[0..] == before + s;
      assert (before + s)[1..] == before[1..] + s;
      forall i | 0 <= i < |before[1..]| ensures MatchAttr((before[1..] + s)[i..], name).None? {
        assert (before[1..] + s)[i..] == (before + s)[i + 1..];
      }
      SearchSkips(before[1..], s, name);
    }
  }

  lemma NoMatch(s: string, name: string, k: nat)
    requires k < |s| && k < |name| && !Folds(s[k], name[k])
    ensures MatchAttr(s, name).None?
  {
  }

  lemma HrefReads(url: string)
    requires Attributable(url)
    ensures SearchAttr(OpeningContent(Link(url)), "href") == url
  {
    var s := "href=\"" + url + "\"";
    AttrMatches("href", url);
    assert "href" + "=\"" + url + "\"" == s;
    var whole := "a " + s;
    assert whole == OpeningContent(Link(url));
    forall i | 0 <= i < 2 ensures MatchAttr(whole[i..], "href").None? {
      assert whole[i..][0] == whole[i];
      NoMatch(whole[i..], "href", 0);
    }
    SearchSkips("a ", s, "href");
  }

  lemma EmojiIdReads(id: string)
    requires Attributable(id)
    ensures SearchAttr(OpeningContent(CustomEmoji(id)), "emoji-id") == id
  {
    hide MatchAttr, SearchAttr;
    var s := "emoji-id=\"" + id + "\"";
    AttrMatches("emoji-id", id);
    assert "emoji-id" + "=\"" + id + "\"" == s;
    var tag := "tg-emoji ";
    var whole := tag + s;
    assert whole == OpeningContent(CustomEmoji(id));
    forall i | 0 <= i < |tag| ensures MatchAttr(whole[i..], "emoji-id").None? {
      var k := if i == 3 then 5 else 0;
      assert whole[i..][k] == tag[i + k];
      NoMatch(whole[i..], "emoji-id", k);
    }
    SearchSkips(tag, s, "emoji-id");
  }

  lemma NewTagOf(lib: Library, e: Element, content: string, pos: int)
    requires Sane(lib) && Allowed(lib, e) && TagName(lib, content) == TagOf(e)
    requires e.Link? ==> SearchAttr(content, "href") == e.url
    requires e.CustomEmoji? ==> SearchAttr(content, "emoji-id") == e.id
    ensures var own := EntityOf(lib, e, 0, 0);
      NewTag(lib, content, pos) == Some(Open(TagOf(e), own.kind, pos, own.attr))
  {
  }

  lemma NameBeforeAttr(lib: Library, name: string, attr: string)
    requires IsName(name) && lib.lower(name) == name
    ensures TagName(lib, name + " " + attr) == name
  {
    NameReads(lib, name);
  }

  lemma ContentReads(lib: Library, e: Element)
    requires Sane(lib) && Allowed(lib, e)
    ensures TagName(lib, OpeningContent(e)) == TagOf(e)
  {
    hide TagName, TagOf, AttrText;
    TagReads(lib, e);
    if e.Styled? {
      NameReads(lib, TagOf(e));
    } else {
      NameBeforeAttr(lib, TagOf(e), AttrText(e));
    }
  }

  lemma OpeningReads(lib: Library, e: Element, pos: int)
    requires Sane(lib) && Allowed(lib, e)
    ensures NewTag(lib, OpeningContent(e), pos)
      == Some(Open(TagOf(e), EntityOf(lib, e, 0, 0).kind, pos, EntityOf(lib, e, 0, 0).attr))
  {
    ContentReads(lib, e);
    if e.Link? { HrefReads(e.url); }
    if e.CustomEmoji? { EmojiIdReads(e.id); }
    NewTagOf(lib, e, OpeningContent(e), pos);
  }

  lemma LooksOpening(lib: Library, e: Element, rest: string)
    requires Sane(lib) && Allowed(lib, e)
    ensures var s := "<" + OpeningContent(e) + ">" + rest;
      Look(lib, s) == Opening(OpeningContent(e), |OpeningContent(e)| + 2)
      && s[|OpeningContent(e)| + 2..] == rest
  {
    hide OpeningContent, TagOf, TagName, ClosingName, Sane, Allowed;
    var content := OpeningContent(e);
    TagReads(lib, e);
    assert content[0] != '/';
    var s := "<" + content + ">" + rest;
    assert s == ("<" + content) + ['>'] + rest;
    assert '>' !in "<" + content;
    FindFirst("<" + content, '>', rest);
    assert s[1..|content| + 1] == content;
  }

  lemma LooksClosing(lib: Library, e: Element, rest: string)
    requires Sane(lib) && Allowed(lib, e)
    ensures var s := "</" + TagOf(e) + ">" + rest;
      Look(lib, s) == Closing(TagOf(e), |TagOf(e)| + 3) && s[|TagOf(e)| + 3..] == rest
  {
    hide ClosingName, TagName, Strip, Sane, Allowed, TagOf, OpeningContent;
    var name := TagOf(e);
    TagReads(lib, e);
    NameReads(lib, name);
    var s := "</" + name + ">" + rest;
    assert s == ("</" + name) + ['>'] + rest;
    assert '>' !in "</" + name;
    FindFirst("</" + name, '>', rest);
    assert s[1..|name| + 2] == "/" + name;
  }

  lemma LooksReference(lib: Library, reference: string, rest: string)
    requires Sane(lib) && reference in ["amp", "lt", "gt"]
    ensures var s := "&" + reference + ";" + rest;
      Look(lib, s) == Reference(lib.unescape("&" + reference + ";"), |reference| + 2) && s[|reference| + 2..] == rest
  {
    var s := "&" + reference + ";" + rest;
    assert s == ("&" + reference) + [';'] + rest;
    FindFirst("&" + reference, ';', rest);
    assert s[..|reference| + 2] == "&" + reference + ";";
  }

  lemma EmitTwice(st: State, a: string, b: string)
    ensures Emit(Emit(st, a), b) == Emit(st, a + b)
  {
    EncodeConcat(a, b);
    assert st.text + a + b == st.text + (a + b);
  }

  lemma ScanEscapedChar(lib: Library, st: State, c: char, rest: string)
    requires Sane(lib)
    ensures Scan(lib, st, EscapeChar(c) + rest) == Scan(lib, Emit(st, [c]), rest)
  {
    hide Scan, Look;
    var s := EscapeChar(c) + rest;
    if c == '&' {
      LooksReference(lib, "amp", rest);
      assert s == "&" + "amp" + ";" + rest && "&" + "amp" + ";" == "&amp;";
      ScanLooked(lib, st, s);
    } else if c == '<' {
      LooksReference(lib, "lt", rest);
      assert s == "&" + "lt" + ";" + rest && "&" + "lt" + ";" == "&lt;";
      ScanLooked(lib, st, s);
    } else if c == '>' {
      LooksReference(lib, "gt", rest);
      assert s == "&" + "gt" + ";" + rest && "&" + "gt" + ";" == "&gt;";
      ScanLooked(lib, st, s);
    } else {
      assert s == [c] + rest && s[1..] == rest;
      ScanLooked(lib, st, s);
    }
  }

  lemma ScanLooked(lib: Library, st: State, s: string)
    requires s != []
    ensures var t := Look(lib, s);
      t.Reference? ==> Scan(lib, st, s) == Scan(lib, Emit(st, t.text), s[t.size..])
    ensures s[0] != '<' && s[0] != '&' ==> Scan(lib, st, s) == Scan(lib, Emit(st, [s[0]]), s[1..])
  {
  }

  lemma {:induction false} ScanEscaped(lib: Library, st: State, t: string, rest: string)
    requires Sane(lib)
    ensures Scan(lib, st, Escape(t) + rest) == Scan(lib, Emit(st, t), rest)
    decreases |t|
  {
    if t == [] {
      assert Emit(st, t) == st;
      assert Escape(t) + rest == rest;
    } else {
      assert Escape(t) == EscapeChar(t[0]) + Escape(t[1..]);
      assert Escape(t) + rest == EscapeChar(t[0]) + (Escape(t[1..]) + rest);
      ScanEscapedChar(lib, st, t[0], Escape(t[1..]) + rest);
      ScanEscaped(lib, Emit(st, [t[0]]), t[1..], rest);
      EmitTwice(st, [t[0]], t[1..]);
      assert [t[0]] + t[1..] == t;
    }
  }

  lemma ScanOpening(lib: Library, st: State, e: Element, rest: string)
    requires Sane(lib) && Allowed(lib, e)
    ensures Scan(lib, st, StartTag(e) + rest) == Scan(lib, OpenTag(lib, st, OpeningContent(e)), rest)
  {
    LooksOpening(lib, e, rest);
  }

  lemma ScanClosing(lib: Library, st: State, e: Element, rest: string)
    requires Sane(lib) && Allowed(lib, e)
    ensures Scan(lib, st, EndTag(e) + rest) == Scan(lib, CloseTag(st, TagOf(e)), rest)
  {
    LooksClosing(lib, e, rest);
    TagReads(lib, e);
  }

  /** The state after a printed forest: text and entities added, stack as before. */
  function After(lib: Library, st: State, f: Forest): State {
    Emit(st, Plain(f)).(entities := st.entities + EntitiesOf(lib, f, st.pos))
  }

  function AfterClosing(lib: Library, st: State, e: Element, children: Forest): State {
    var size := Utf16Len(Plain(children));
    var inside := EntitiesOf(lib, children, st.pos) + [EntityOf(lib, e, st.pos, size)];
    After(lib, st, children).(entities := st.entities + inside)
  }

  lemma CloseTop(st: State, below: seq<Open>, o: Open)
    requires st.stack == below + [o]
    ensures CloseTag(st, o.tag)
      == st.(stack := below, entities := st.entities + [Entity(o.kind, o.offset, st.pos - o.offset, o.attr)])
  {
    assert st.stack[..|below|] == below && st.stack[|below| + 1..] == [];
  }

  lemma EntityFields(lib: Library, e: Element, offset: int, length: int)
    ensures var own := EntityOf(lib, e, 0, 0);
      EntityOf(lib, e, offset, length) == Entity(own.kind, offset, length, own.attr)
  {
  }

  /** Closing an element whose children have been scanned adds just its entity. */
  lemma ClosedElement(lib: Library, st: State, e: Element, children: Forest)
    requires Sane(lib) && Allowed(lib, e)
    ensures var inside := After(lib, OpenTag(lib, st, OpeningContent(e)), children);
      CloseTag(inside, TagOf(e)) == AfterClosing(lib, st, e, children)
  {
    hide CloseTag, NewTag, EntitiesOf, EntityOf, Encode, Plain, Sane, OpeningContent;
    OpeningReads(lib, e, st.pos);
    var o := NewTag(lib, OpeningContent(e), st.pos).value;
    var inside := After(lib, OpenTag(lib, st, OpeningContent(e)), children);
    CloseTop(inside, st.stack, o);
    EntityFields(lib, e, st.pos, Utf16Len(Plain(children)));
    var inner := EntitiesOf(lib, children, st.pos);
    var own := EntityOf(lib, e, st.pos, Utf16Len(Plain(children)));
    assert st.entities + inner + [own] == st.entities + (inner + [own]);
  }

  lemma AfterElement(lib: Library, st: State, e: Element, children: Forest, next: Forest)
    ensures After(lib, AfterClosing(lib, st, e, children), next) == After(lib, st, Elem(e, children, next))
  {
    hide Encode, EntityOf;
    EncodeConcat(Plain(children), Plain(next));
    var size := Utf16Len(Plain(children));
    var inside := EntitiesOf(lib, children, st.pos) + [EntityOf(lib, e, st.pos, size)];
    var more := EntitiesOf(lib, next, st.pos + size);
    assert st.entities + inside + more == st.entities + (inside + more);
    assert st.text + Plain(children) + Plain(next) == st.text + (Plain(children) + Plain(next));
  }

  lemma PrintedElement(e: Element, children: Forest, next: Forest, rest: string)
    ensures Print(Elem(e, children, next)) + rest
      == StartTag(e) + (Print(children) + (EndTag(e) + (Print(next) + rest)))
  {
    hide StartTag, EndTag;
  }

  lemma PrintedText(t: string, next: Forest, rest: string)
    ensures Print(Text(t, next)) + rest == Escape(t) + (Print(next) + rest)
  {
  }

  lemma AfterText(lib: Library, st: State, t: string, next: Forest)
    ensures After(lib, Emit(st, t), next) == After(lib, st, Text(t, next))
  {
    EmitTwice(st, t, Plain(next));
  }

  lemma AfterNothing(lib: Library, st: State)
    ensures After(lib, st, Nothing) == st
  {
    assert st.text + "" == st.text && st.entities + [] == st.entities;
  }

  lemma {:induction false} ScanPrinted(lib: Library, st: State, f: Forest, rest: string)
    requires Sane(lib) && Printable(lib, f)
    ensures Scan(lib, st, Print(f) + rest) == Scan(lib, After(lib, st, f), rest)
    decreases f
  {
    match f
    case Nothing =>
      assert Print(f) + rest == rest;
      AfterNothing(lib, st);
    case Text(t, next) =>
      PrintedText(t, next, rest);
      ScanEscaped(lib, st, t, Print(next) + rest);
      ScanPrinted(lib, Emit(st, t), next, rest);
      AfterText(lib, st, t, next);
    case Elem(e, children, next) =>
      var tail := Print(next) + rest;
      var close := EndTag(e) + tail;
      var inner := OpenTag(lib, st, OpeningContent(e));
      PrintedElement(e, children, next, rest);
      ScanOpening(lib, st, e, Print(children) + close);
      ScanPrinted(lib, inner, children, close);
      ScanClosing(lib, After(lib, inner, children), e, tail);
      ClosedElement(lib, st, e, children);
      ScanPrinted(lib, AfterClosing(lib, st, e, children), next, rest);
      AfterElement(lib, st, e, children, next);
  }

  lemma TagMapNames(name: string)
    requires name in TAG_MAP
    ensures IsName(name) && name != "a" && name != "tg-emoji"
  {
  }

  /** The host's own string functions, as far as the round trip relies on them. */
  ghost predicate SaneFunctions(lower: string -> string, unescape: string -> string) {
    && (forall name :: name in TAG_MAP || name == "a" || name == "tg-emoji" ==> lower(name) == name)
    && unescape("&amp;") == "&" && unescape("&lt;") == "<" && unescape("&gt;") == ">"
  }

  lemma TagMapIsSane(lower: string -> string, unescape: string -> string)
    requires SaneFunctions(lower, unescape)
    ensures Sane(Library(lower, unescape, TAG_MAP))
  {
    forall name | name in TAG_MAP ensures IsName(name) && name != "a" && name != "tg-emoji" {
      TagMapNames(name);
    }
  }

  /** Main result: the scanner undoes the printer.  It returns the plain text of
      the forest and its entities in closing order, offsets and lengths exact. */
  lemma {:induction false} ScanUndoesPrint(lib: Library, f: Forest)
    requires Sane(lib) && Printable(lib, f)
    ensures Scan(lib, INITIAL, Print(f)) == Ok(State(Plain(f), Utf16Len(Plain(f)), [], EntitiesOf(lib, f, 0)))
  {
    ScanPrinted(lib, INITIAL, f, "");
    assert Print(f) + "" == Print(f);
    assert "" + Plain(f) == Plain(f) && [] + EntitiesOf(lib, f, 0) == EntitiesOf(lib, f, 0);
  }

  /** A reference of at most six characters between `&` and `;` is unescaped as a whole;
      with more, or without an end, the `&` stands for itself. */
  lemma ReferencesExactly(lib: Library, st: State, body: string, rest: string)
    requires ';' !in body
    ensures var s := "&" + body + ";" + rest;
      Scan(lib, st, s) ==
        if |body| <= 6 then Scan(lib, Emit(st, lib.unescape("&" + body + ";")), rest)
        else Scan(lib, Emit(st, "&"), body + ";" + rest)
    ensures Scan(lib, st, "&" + body) == Scan(lib, Emit(st, "&"), body)
  {
    hide Scan;
    var s := "&" + body + ";" + rest;
    FindFirst("&" + body, ';', rest);
    assert s[..|body| + 2] == "&" + body + ";" && s[|body| + 2..] == rest && s[1..] == body + ";" + rest;
    FindNone("&" + body, ';');
    assert ("&" + body)[1..] == body && ("&" + body)[0] == '&' && s[0] == '&';
    LooksAt(lib, st, s);
    LooksAt(lib, st, "&" + body);
  }

  /** A `<` that no `>` follows stands for itself. */
  lemma LoneAngle(lib: Library, st: State, body: string)
    requires '>' !in body
    ensures Scan(lib, st, "<" + body) == Scan(lib, Emit(st, "<"), body)
  {
    FindNone("<" + body, '>');
    assert ("<" + body)[1..] == body;
  }

  lemma LooksAt(lib: Library, st: State, s: string)
    requires s != [] && s[0] == '&'
    ensures var t := Look(lib, s);
      Scan(lib, st, s) ==
        if t.Reference? then Scan(lib, Emit(st, t.text), s[t.size..]) else Scan(lib, Emit(st, "&"), s[1..])
  {
    assert [s[0]] == "&";
  }

  /** A tag with an unknown name leaves no trace: neither opening nor, as long as no such
      tag is open, closing. */
  lemma UnknownTagVanishes(lib: Library, st: State, name: string, rest: string)
    requires IsName(name) && lib.lower(name) == name && name !in lib.tags && name != "a" && name != "tg-emoji"
    requires forall k :: 0 <= k < |st.stack| ==> st.stack[k].tag != name
    ensures Scan(lib, st, "<" + name + ">" + rest) == Scan(lib, st, rest)
    ensures Scan(lib, st, "</" + name + ">" + rest) == Scan(lib, st, rest)
  {
    UnknownOpening(lib, st, name, rest);
    UnknownClosing(lib, st, name, rest);
  }

  lemma UnknownOpening(lib: Library, st: State, name: string, rest: string)
    requires IsName(name) && lib.lower(name) == name && name !in lib.tags && name != "a" && name != "tg-emoji"
    ensures Scan(lib, st, "<" + name + ">" + rest) == Scan(lib, st, rest)
  {
    hide ClosingName, TagName, Strip, SearchAttr;
    NameReads(lib, name);
    var s := "<" + name + ">" + rest;
    FindFirst("<" + name, '>', rest);
    assert s[1..|name| + 1] == name && s[|name| + 2..] == rest;
    assert Look(lib, s) == Opening(name, |name| + 2);
  }

  lemma UnknownClosing(lib: Library, st: State, name: string, rest: string)
    requires IsName(name) && lib.lower(name) == name
    requires forall k :: 0 <= k < |st.stack| ==> st.stack[k].tag != name
    ensures Scan(lib, st, "</" + name + ">" + rest) == Scan(lib, st, rest)
  {
    hide ClosingName, TagName, Strip, SearchAttr;
    NameReads(lib, name);
    var t := "</" + name + ">" + rest;
    FindFirst("</" + name, '>', rest);
    assert t[1..|name| + 2] == "/" + name && t[|name| + 3..] == rest;
    assert Look(lib, t) == Closing(name, |name| + 3);
  }

  /** The plain text of each element, in closing order. */
  function ElementTexts(f: Forest): seq<string> {
    match f
    case Nothing => []
    case Text(_, next) => ElementTexts(next)
    case Elem(_, children, next) => ElementTexts(children) + [Plain(children)] + ElementTexts(next)
  }

  predicate Selects(units: seq<int>, e: Entity, text: string) {
    0 <= e.offset && 0 <= e.length && End(e) <= |units| && units[e.offset..End(e)] == Encode(text)
  }

  ghost predicate AllSelect(units: seq<int>, es: seq<Entity>, texts: seq<string>) {
    |es| == |texts| && forall i :: 0 <= i < |es| ==> Selects(units, es[i], texts[i])
  }

  lemma AllSelectConcat(units: seq<int>, es: seq<Entity>, texts: seq<string>, es': seq<Entity>, texts': seq<string>)
    requires AllSelect(units, es, texts) && AllSelect(units, es', texts')
    ensures AllSelect(units, es + es', texts + texts')
  {
  }

  /** Read in the encoded text, each entity's range is its element's own text. */
  lemma {:induction false} EntitiesSelectElements(lib: Library, f: Forest, before: seq<int>, behind: seq<int>)
    ensures AllSelect(before + Encode(Plain(f)) + behind, EntitiesOf(lib, f, |before|), ElementTexts(f))
    decreases f
  {
    hide Encode, Selects, EntityOf;
    match f
    case Nothing =>
    case Text(t, next) =>
      EncodeConcat(t, Plain(next));
      EntitiesSelectElements(lib, next, before + Encode(t), behind);
      assert before + (Encode(t) + Encode(Plain(next))) + behind == before + Encode(t) + Encode(Plain(next)) + behind;
    case Elem(e, children, next) =>
      var own, more := Encode(Plain(children)), Encode(Plain(next));
      EntitiesSelectElements(lib, children, before, more + behind);
      EntitiesSelectElements(lib, next, before + own, behind);
      OwnSelects(lib, e, before, Plain(children), more + behind);
      ElementUnits(e, children, next, before, behind);
      ElementSelects(lib, e, children, next, |before|, before + own + (more + behind));
  }

  lemma ElementSelects(lib: Library, e: Element, children: Forest, next: Forest, base: nat, units: seq<int>)
    requires AllSelect(units, EntitiesOf(lib, children, base), ElementTexts(children))
    requires Selects(units, EntityOf(lib, e, base, Utf16Len(Plain(children))), Plain(children))
    requires AllSelect(units, EntitiesOf(lib, next, base + Utf16Len(Plain(children))), ElementTexts(next))
    ensures AllSelect(units, EntitiesOf(lib, Elem(e, children, next), base), ElementTexts(Elem(e, children, next)))
  {
    hide AllSelect, Selects, EntityOf, Encode, Plain;
    var size := Utf16Len(Plain(children));
    ThreeSelect(units, EntitiesOf(lib, children, base), ElementTexts(children),
      EntityOf(lib, e, base, size), Plain(children), EntitiesOf(lib, next, base + size), ElementTexts(next));
  }

  lemma ElementUnits(e: Element, children: Forest, next: Forest, before: seq<int>, behind: seq<int>)
    ensures var own, more := Encode(Plain(children)), Encode(Plain(next));
      && before + own + (more + behind) == before + own + more + behind
      && before + own + (more + behind) == before + Encode(Plain(Elem(e, children, next))) + behind
  {
    hide Encode;
    EncodeConcat(Plain(children), Plain(next));
  }

  lemma ThreeSelect(units: seq<int>, es: seq<Entity>, texts: seq<string>, e: Entity, text: string,
                    es': seq<Entity>, texts': seq<string>)
    requires AllSelect(units, es, texts) && Selects(units, e, text) && AllSelect(units, es', texts')
    ensures AllSelect(units, es + [e] + es', texts + [text] + texts')
  {
    AllSelectConcat(units, es, texts, [e], [text]);
    AllSelectConcat(units, es + [e], texts + [text], es', texts');
  }

  lemma OwnSelects(lib: Library, e: Element, before: seq<int>, text: string, behind: seq<int>)
    ensures Selects(before + Encode(text) + behind, EntityOf(lib, e, |before|, Utf16Len(text)), text)
  {
    EntityFields(lib, e, |before|, Utf16Len(text));
  }

  // -------------------------------------------------------- append_timestamp

  const REFRESH_EMOJI: string := "\U{1F504}"
  const REFRESH_EMOJI_ID: string := "5017470156276761427"
  const CHECKED: string := " \U{41F}\U{435}\U{440}\U{435}\U{432}\U{456}\U{440}\U{435}\U{43D}\U{43E}: "

  function Digits(n: nat): string {
    if n < 10 then [DIGITS[n]] else Digits(n / 10) + [DIGITS[n % 10]]
  }

  const DIGITS: string := "0123456789"

  function Decimal(n: int): string { if n < 0 then "-" + Digits(-n) else Digits(n) }

  function DigitValue(c: char): int { c as int - '0' as int }

  /** Reading a numeral from the left. */
  function Value(s: string): int {
    if s == [] then 0 else Value(s[..|s| - 1]) * 10 + DigitValue(s[|s| - 1])
  }

  /** The digits read as the number, all of them digits. */
  lemma {:induction false} DigitsRead(n: nat)
    ensures Value(Digits(n)) == n && forall c <- Digits(n) :: '0' <= c <= '9'
  {
    if n < 10 {
      assert Digits(n)[..0] == [];
    } else {
      DigitsRead(n / 10);
      assert Digits(n)[..|Digits(n)| - 1] == Digits(n / 10);
    }
  }

  function AppendTimestamp(lib: Library, html: string, time: int): Result<(string, seq<Entity>)> {
    match Scan(lib, INITIAL, html)
    case Raised => Raised
    case Ok(st) =>
      var prefix := "\n\n" + REFRESH_EMOJI + CHECKED;
      var stamp := Decimal(time);
      var size := Utf16Len(st.text);
      Ok((st.text + prefix + stamp,
          st.entities + [
            Entity("custom_emoji", size + Utf16Len("\n\n"), Utf16Len(REFRESH_EMOJI), EmojiId(REFRESH_EMOJI_ID)),
            Entity("date_time", size + Utf16Len(prefix), Utf16Len(stamp), UnixTime(time))]))
  }

  lemma SelectsMiddle(a: string, b: string, c: string, e: Entity)
    requires e.offset == Utf16Len(a) && e.length == Utf16Len(b)
    ensures Selects(Encode(a + b + c), e, b)
  {
    EncodeConcat(a + b, c);
    EncodeConcat(a, b);
    assert Encode(a + b + c) == Encode(a) + Encode(b) + Encode(c);
  }

  lemma TwoRanges(text: string, gap: string, icon: string, caption: string, stamp: string, e1: Entity, e2: Entity)
    requires e1.offset == Utf16Len(text) + Utf16Len(gap) && e1.length == Utf16Len(icon)
    requires e2.offset == Utf16Len(text) + Utf16Len(gap + icon + caption) && e2.length == Utf16Len(stamp)
    ensures var full := text + (gap + icon + caption) + stamp;
      && Selects(Encode(full), e1, icon) && Selects(Encode(full), e2, stamp)
      && Utf16Len(text) <= End(e1) <= End(e2) == Utf16Len(full)
  {
    hide Encode, Selects;
    var prefix := gap + icon + caption;
    var full := text + prefix + stamp;
    EncodeConcat(text, gap);
    assert full == (text + gap) + icon + (caption + stamp);
    SelectsMiddle(text + gap, icon, caption + stamp, e1);
    EncodeConcat(text, prefix);
    assert full == (text + prefix) + stamp + "";
    SelectsMiddle(text + prefix, stamp, "", e2);
    EncodeConcat(text + prefix, stamp);
    EncodeConcat(gap + icon, caption);
    EncodeConcat(gap, icon);
  }

  /** The two added ranges select exactly the refresh emoji and the digits, the
      earlier entities are kept, and all of them lie inside the full text. */
  lemma TimestampRanges(lib: Library, html: string, time: int)
    requires AppendTimestamp(lib, html, time).Ok?
    ensures var (text, entities) := AppendTimestamp(lib, html, time).value;
      && Scan(lib, INITIAL, html).Ok?
      && var st := Scan(lib, INITIAL, html).value;
      && |entities| == |st.entities| + 2 && entities[..|st.entities|] == st.entities
      && text == st.text + ("\n\n" + REFRESH_EMOJI + CHECKED) + Decimal(time)
      && Selects(Encode(text), entities[|entities| - 2], REFRESH_EMOJI)
      && Selects(Encode(text), entities[|entities| - 1], Decimal(time))
      && End(entities[|entities| - 1]) == Utf16Len(text)
      && EntitiesInside(entities, Utf16Len(text))
  {
    var st := Scan(lib, INITIAL, html).value;
    ScanIsBounded(lib, INITIAL, html);
    var (text, entities) := AppendTimestamp(lib, html, time).value;
    var e1, e2 := entities[|entities| - 2], entities[|entities| - 1];
    TwoRanges(st.text, "\n\n", REFRESH_EMOJI, CHECKED, Decimal(time), e1, e2);
    TwoMoreInside(st.entities, st.pos, e1, e2, Utf16Len(text));
  }

  lemma TwoMoreInside(es: seq<Entity>, pos: int, e1: Entity, e2: Entity, pos': int)
    requires EntitiesInside(es, pos) && pos <= End(e1) <= End(e2) <= pos'
    requires 0 <= e1.offset && 0 <= e1.length && 0 <= e2.offset && 0 <= e2.length
    ensures EntitiesInside(es + [e1, e2], pos')
  {
  }

  // ---------------------------------------------------------------- the loop

  method HtmlToEntities(lib: Library, html: string) returns (result: Result<(string, seq<Entity>)>)
    ensures match Scan(lib, INITIAL, html)
      case Ok(st) => result == Ok((st.text, st.entities))
      case Raised => result == Raised
  {
    var parts: string := "";
    var utf16Pos := 0;
    var stack: seq<Open> := [];
    var entities: seq<Entity> := [];
    var i := 0;
    hide Scan;
    assert html[0..] == html;
    while i < |html|
      invariant 0 <= i <= |html|
      invariant Scan(lib, State(parts, utf16Pos, stack, entities), html[i..]) == Scan(lib, INITIAL, html)
    {
      var close := if html[i] == '<' then Find(html[i..], '>') else None;
      if close.Some? {
        var raised;
        raised, stack, entities := HandleTag(lib, html[i..], close.value, parts, stack, entities, utf16Pos);
        if raised {
          return Raised;
        }
        i := NextIndex(html, i, close.value + 1);
      } else {
        var fragment, size := ReadText(lib, html[i..], State(parts, utf16Pos, stack, entities));
        parts := parts + fragment;
        utf16Pos := utf16Pos + Utf16Len(fragment);
        i := NextIndex(html, i, size);
      }
    }
    ScanEnds(lib, State(parts, utf16Pos, stack, entities), html[i..]);
    result := Ok((parts, entities));
  }

  lemma ScanEnds(lib: Library, st: State, s: string)
    requires s == ""
    ensures Scan(lib, st, s) == Ok(st)
  {
  }

  function NextIndex(html: string, i: nat, size: nat): (j: nat)
    requires i + size <= |html|
    ensures j <= |html| && html[j..] == html[i..][size..]
  {
    i + size
  }

  /** The text that `rest` starts with, when it starts with no tag. */
  method ReadText(lib: Library, rest: string, ghost st: State) returns (fragment: string, size: nat)
    requires rest != [] && (rest[0] == '<' ==> Find(rest, '>').None?)
    ensures 0 < size <= |rest|
    ensures Scan(lib, st, rest)
      == Scan(lib, State(st.text + fragment, st.pos + Utf16Len(fragment), st.stack, st.entities), rest[size..])
  {
    hide Scan;
    if rest[0] == '&' {
      var semi := Find(rest, ';');
      if semi.Some? && semi.value < 8 {
        ScanReference(lib, st, rest, semi.value);
        return lib.unescape(rest[..semi.value + 1]), semi.value + 1;
      }
    }
    ScanChar(lib, st, rest);
    return [rest[0]], 1;
  }

  lemma ScanChar(lib: Library, st: State, s: string)
    requires s != [] && Look(lib, s) == Char
    ensures var emitted := State(st.text + [s[0]], st.pos + Utf16Len([s[0]]), st.stack, st.entities);
      Scan(lib, st, s) == Scan(lib, emitted, s[1..])
  {
  }

  lemma ScanReference(lib: Library, st: State, s: string, k: nat)
    requires s != [] && s[0] == '&' && Find(s, ';') == Some(k) && k < 8
    ensures var fragment := lib.unescape(s[..k + 1]);
      var emitted := State(st.text + fragment, st.pos + Utf16Len(fragment), st.stack, st.entities);
      Scan(lib, st, s) == Scan(lib, emitted, s[k + 1..])
  {
  }

  /** The effect of the tag that `rest` starts with on the stack and the entities. */
  method HandleTag(lib: Library, rest: string, close: nat, ghost text: string,
                   stack: seq<Open>, entities: seq<Entity>, pos: int)
    returns (raised: bool, stack': seq<Open>, entities': seq<Entity>)
    requires rest != [] && rest[0] == '<' && Find(rest, '>') == Some(close)
    ensures Scan(lib, State(text, pos, stack, entities), rest)
      == if raised then Raised else Scan(lib, State(text, pos, stack', entities'), rest[close + 1..])
  {
    hide NewTag, ClosingName, CloseTag, Innermost;
    raised, stack', entities' := false, stack, entities;
    var content := rest[1..close];
    if content != "" && content[0] == '/' {
      var name := ClosingName(lib, content);
      assert Look(lib, rest) == Closing(name, close + 1);
      if name == "" {
        raised := true;
        return;
      }
      stack', entities' := PopTag(stack, entities, pos, name, text);
    } else {
      assert Look(lib, rest) == Opening(content, close + 1);
      var entry := NewTag(lib, content, pos);
      if entry.Some? {
        stack' := stack + [entry.value];
      }
    }
  }

  /** Searches the stack from the top and closes the first tag of that name. */
  method PopTag(stack: seq<Open>, entities: seq<Entity>, pos: int, name: string, ghost text: string)
    returns (stack': seq<Open>, entities': seq<Entity>)
    ensures CloseTag(State(text, pos, stack, entities), name) == State(text, pos, stack', entities')
  {
    stack', entities' := stack, entities;
    var s := |stack| - 1;
    while s >= 0
      invariant -1 <= s < |stack|
      invariant forall k :: s < k < |stack| ==> stack[k].tag != name
      invariant stack' == stack && entities' == entities
    {
      if stack[s].tag == name {
        var entry := stack[s];
        entities' := entities' + [Entity(entry.kind, entry.offset, pos - entry.offset, entry.attr)];
        stack' := stack[..s] + stack[s + 1..];
        return;
      }
      s := s - 1;
    }
  }
}
