/**
 The entities of any input as matched brackets: a second reading of the scanner that
 has no stack.  Each closing tag looks back for its own opening tag, tag name by tag
 name, however tags of different names cross.
 */
module EntityPairs {
  import opened HtmlEntities
  import opened Wrappers

  /** The input as the scanner splits it: text, opening tags it knows, closing tags. */
  datatype Piece =
    | Written(fragment: string)
    | Opened(tag: string, kind: string, attr: Attr)
    | Closed(name: string)
    | Ignored

  function Pieces(lib: Library, s: string): seq<Piece>
    decreases |s|
  {
    if s == [] then [] else
    match Look(lib, s)
    case Char => [Written([s[0]])] + Pieces(lib, s[1..])
    case Closing(name, size) => [Closed(name)] + Pieces(lib, s[size..])
    case Opening(content, size) => [OpeningPiece(lib, content)] + Pieces(lib, s[size..])
    case Reference(text, size) => [Written(text)] + Pieces(lib, s[size..])
  }

  function OpeningPiece(lib: Library, content: string): Piece {
    match NewTag(lib, content, 0) case None => Ignored case Some(o) => Opened(o.tag, o.kind, o.attr)
  }

  /** The text of the first n pieces. */
  function TextUpTo(ps: seq<Piece>, n: nat): string
    requires n <= |ps|
  {
    if n == 0 then "" else TextUpTo(ps, n - 1) + if ps[n - 1].Written? then ps[n - 1].fragment else ""
  }

  function OffsetOf(ps: seq<Piece>, n: nat): nat
    requires n <= |ps|
  {
    Utf16Len(TextUpTo(ps, n))
  }

  /** Looking back from piece n for the opening tag of this name that is not yet closed,
      passing over one more opening for every closing tag met on the way. */
  function Opener(ps: seq<Piece>, name: string, n: nat, skip: nat): (i: Option<nat>)
    requires n <= |ps|
    ensures i.Some? ==> i.value < n && ps[i.value].Opened? && ps[i.value].tag == name
  {
    if n == 0 then None
    else if ps[n - 1] == Closed(name) then Opener(ps, name, n - 1, skip + 1)
    else if ps[n - 1].Opened? && ps[n - 1].tag == name then
      if skip == 0 then Some(n - 1) else Opener(ps, name, n - 1, skip - 1)
    else Opener(ps, name, n - 1, skip)
  }

  /** One entity for each closing tag that has an opener, over the text between them. */
  function Paired(ps: seq<Piece>, n: nat): seq<Entity>
    requires n <= |ps|
  {
    if n == 0 then [] else
    Paired(ps, n - 1) +
    if !ps[n - 1].Closed? then []
    else match Opener(ps, ps[n - 1].name, n - 1, 0)
      case None => []
      case Some(i) =>
        [Entity(ps[i].kind, OffsetOf(ps, i), OffsetOf(ps, n - 1) - OffsetOf(ps, i), ps[i].attr)]
  }

  /** The openings still on the stack after n pieces, oldest first. */
  function Unclosed(ps: seq<Piece>, n: nat): (open: seq<nat>)
    requires n <= |ps|
    ensures forall p :: 0 <= p < |open| ==> open[p] < n && ps[open[p]].Opened?
  {
    if n == 0 then []
    else
      var before := Unclosed(ps, n - 1);
      match ps[n - 1]
      case Opened(_, _, _) => before + [n - 1]
      case Closed(name) => WithoutLast(ps, before, name)
      case _ => before
  }

  predicate Has(ps: seq<Piece>, i: nat, name: string) { i < |ps| && ps[i].Opened? && ps[i].tag == name }

  function WithoutLast(ps: seq<Piece>, open: seq<nat>, name: string): (r: seq<nat>)
    ensures forall p :: 0 <= p < |r| ==> r[p] in open
  {
    if open == [] then []
    else
      var m := |open| - 1;
      if Has(ps, open[m], name) then open[..m] else WithoutLast(ps, open[..m], name) + [open[m]]
  }

  function Named(ps: seq<Piece>, open: seq<nat>, name: string): seq<nat> {
    if open == [] then []
    else
      var m := |open| - 1;
      Named(ps, open[..m], name) + if Has(ps, open[m], name) then [open[m]] else []
  }

  function DropLast(s: seq<nat>): seq<nat> { if s == [] then [] else s[..|s| - 1] }

  lemma NamedAppend(ps: seq<Piece>, open: seq<nat>, i: nat, name: string)
    ensures Named(ps, open + [i], name) == Named(ps, open, name) + if Has(ps, i, name) then [i] else []
  {
    assert (open + [i])[..|open|] == open;
  }

  lemma NothingNamed(ps: seq<Piece>, closed: string, name: string)
    ensures Named(ps, [], name) == [] && WithoutLast(ps, [], closed) == []
  {
  }

  lemma {:induction false} NamedWithoutLast(ps: seq<Piece>, open: seq<nat>, closed: string, name: string)
    ensures Named(ps, WithoutLast(ps, open, closed), name) ==
      if name == closed then DropLast(Named(ps, open, name)) else Named(ps, open, name)
  {
    hide Named, WithoutLast;
    if open == [] {
      NothingNamed(ps, closed, name);
    } else {
      var m := |open| - 1;
      TopOfName(ps, open, closed);
      TopOfName(ps, open, name);
      NamedWithoutLast(ps, open[..m], closed, name);
      if !Has(ps, open[m], closed) {
        NamedAppend(ps, WithoutLast(ps, open[..m], closed), open[m], name);
      }
    }
  }

  /** The openings of one name still on the stack. */
  function OpenOf(ps: seq<Piece>, name: string, n: nat): seq<nat>
    requires n <= |ps|
  {
    Named(ps, Unclosed(ps, n), name)
  }

  lemma OpenStep(ps: seq<Piece>, name: string, n: nat)
    requires 0 < n <= |ps|
    ensures OpenOf(ps, name, n) ==
      if ps[n - 1] == Closed(name) then DropLast(OpenOf(ps, name, n - 1))
      else if ps[n - 1].Opened? && ps[n - 1].tag == name then OpenOf(ps, name, n - 1) + [n - 1]
      else OpenOf(ps, name, n - 1)
  {
    hide Named, WithoutLast, DropLast;
    var before := Unclosed(ps, n - 1);
    if ps[n - 1].Opened? { NamedAppend(ps, before, n - 1, name); }
    if ps[n - 1].Closed? { NamedWithoutLast(ps, before, ps[n - 1].name, name); }
  }

  /** The backward search finds, for every number of skips, the opening that many places
      below the top of those of its name. */
  lemma {:induction false} OpenerIsOnStack(ps: seq<Piece>, name: string, n: nat, skip: nat)
    requires n <= |ps|
    ensures var named := OpenOf(ps, name, n);
      Opener(ps, name, n, skip) == if skip < |named| then Some(named[|named| - 1 - skip]) else None
    decreases n
  {
    hide OpenOf;
    if n == 0 {
      NothingOpen(ps, name);
    } else {
      OpenStep(ps, name, n);
      if ps[n - 1] == Closed(name) {
        OpenerIsOnStack(ps, name, n - 1, skip + 1);
      } else if ps[n - 1].Opened? && ps[n - 1].tag == name {
        if skip > 0 { OpenerIsOnStack(ps, name, n - 1, skip - 1); }
      } else {
        OpenerIsOnStack(ps, name, n - 1, skip);
      }
    }
  }

  lemma NothingOpen(ps: seq<Piece>, name: string)
    ensures OpenOf(ps, name, 0) == []
  {
  }

  /** The stack entry that an opening piece leaves. */
  function EntryOf(ps: seq<Piece>, i: nat): Open
    requires i < |ps| && ps[i].Opened?
  {
    Open(ps[i].tag, ps[i].kind, OffsetOf(ps, i), ps[i].attr)
  }

  /** The stack entries are those of the openings. */
  ghost predicate Mirrors(stack: seq<Open>, ps: seq<Piece>, open: seq<nat>) {
    && |stack| == |open|
    && forall p :: 0 <= p < |open| ==> open[p] < |ps| && ps[open[p]].Opened? && stack[p] == EntryOf(ps, open[p])
  }

  /** The scanner's state is what the pieces so far make of it. */
  ghost predicate Reflects(st: State, ps: seq<Piece>, n: nat)
    requires n <= |ps|
  {
    && st.text == TextUpTo(ps, n) && st.pos == OffsetOf(ps, n) && st.entities == Paired(ps, n)
    && Mirrors(st.stack, ps, Unclosed(ps, n))
  }

  lemma MirrorsBelow(stack: seq<Open>, ps: seq<Piece>, open: seq<nat>)
    requires Mirrors(stack, ps, open) && open != []
    ensures var m := |open| - 1;
      Mirrors(stack[..m], ps, open[..m]) && open[m] < |ps| && ps[open[m]].Opened? && stack[m].tag == ps[open[m]].tag
  {
  }

  lemma {:induction false} LastOfName(ps: seq<Piece>, open: seq<nat>, name: string, k: nat)
    requires k < |open| && Has(ps, open[k], name)
    requires forall p :: k < p < |open| ==> !Has(ps, open[p], name)
    ensures var named := Named(ps, open, name); named != [] && open[k] == named[|named| - 1]
    ensures WithoutLast(ps, open, name) == open[..k] + open[k + 1..]
  {
    hide Has, Named, WithoutLast;
    var m := |open| - 1;
    var below := open[..m];
    TopOfName(ps, open, name);
    if k == m {
      assert open[m + 1..] == [] && below + [] == below;
    } else {
      LastOfName(ps, below, name, k);
      Slices(open, k);
    }
  }

  lemma TopOfName(ps: seq<Piece>, open: seq<nat>, name: string)
    requires open != []
    ensures var m := |open| - 1;
      && Named(ps, open, name) == Named(ps, open[..m], name) + (if Has(ps, open[m], name) then [open[m]] else [])
      && (Has(ps, open[m], name) ==> WithoutLast(ps, open, name) == open[..m])
      && (!Has(ps, open[m], name) ==> WithoutLast(ps, open, name) == WithoutLast(ps, open[..m], name) + [open[m]])
  {
  }

  lemma Slices(open: seq<nat>, k: nat)
    requires k + 1 < |open|
    ensures var m := |open| - 1;
      open[..m][..k] + open[..m][k + 1..] + [open[m]] == open[..k] + open[k + 1..]
  {
  }

  lemma {:induction false} NoneOfName(ps: seq<Piece>, open: seq<nat>, name: string)
    requires forall p :: 0 <= p < |open| ==> !Has(ps, open[p], name)
    ensures Named(ps, open, name) == [] && WithoutLast(ps, open, name) == open
  {
    hide Has, Named, WithoutLast;
    if open == [] {
      NothingNamed(ps, name, name);
    } else {
      var m := |open| - 1;
      TopOfName(ps, open, name);
      NoneOfName(ps, open[..m], name);
      assert open[..m] + [open[m]] == open;
    }
  }

  /** Closing the innermost tag of a name removes the last opening of that name. */
  lemma InnermostIsLast(ps: seq<Piece>, stack: seq<Open>, open: seq<nat>, name: string)
    requires Mirrors(stack, ps, open)
    ensures var named := Named(ps, open, name);
      match Innermost(stack, name)
      case None => named == [] && WithoutLast(ps, open, name) == open
      case Some(k) =>
        && named != [] && k < |open| && open[k] == named[|named| - 1]
        && WithoutLast(ps, open, name) == open[..k] + open[k + 1..]
  {
    hide Innermost, Named, WithoutLast;
    assert forall p :: 0 <= p < |open| ==> (stack[p].tag == name <==> Has(ps, open[p], name));
    match Innermost(stack, name)
    case None => NoneOfName(ps, open, name);
    case Some(k) => LastOfName(ps, open, name, k);
  }

  /** What one piece does to the state. */
  function Take(st: State, p: Piece): State {
    match p
    case Written(fragment) => Emit(st, fragment)
    case Opened(tag, kind, attr) => st.(stack := st.stack + [Open(tag, kind, st.pos, attr)])
    case Closed(name) => CloseTag(st, name)
    case Ignored => st
  }

  lemma WrittenReflects(st: State, ps: seq<Piece>, n: nat)
    requires n < |ps| && ps[n].Written? && Reflects(st, ps, n)
    ensures Reflects(Take(st, ps[n]), ps, n + 1)
  {
    EncodeConcat(TextUpTo(ps, n), ps[n].fragment);
  }

  lemma MirrorsWithout(stack: seq<Open>, ps: seq<Piece>, open: seq<nat>, k: nat)
    requires Mirrors(stack, ps, open) && k < |stack|
    ensures k < |open| && open[k] < |ps| && ps[open[k]].Opened? && stack[k] == EntryOf(ps, open[k])
    ensures Mirrors(stack[..k] + stack[k + 1..], ps, open[..k] + open[k + 1..])
  {
  }

  lemma TextStays(ps: seq<Piece>, n: nat)
    requires n < |ps| && !ps[n].Written?
    ensures TextUpTo(ps, n + 1) == TextUpTo(ps, n) && OffsetOf(ps, n + 1) == OffsetOf(ps, n)
  {
    assert TextUpTo(ps, n) + "" == TextUpTo(ps, n);
  }

  lemma ClosedReflects(st: State, ps: seq<Piece>, n: nat)
    requires n < |ps| && ps[n].Closed? && Reflects(st, ps, n)
    ensures Reflects(Take(st, ps[n]), ps, n + 1)
  {
    hide Utf16Len, Opener, Named, WithoutLast, Mirrors, TextUpTo, OffsetOf, Innermost;
    var name, open := ps[n].name, Unclosed(ps, n);
    TextStays(ps, n);
    InnermostIsLast(ps, st.stack, open, name);
    OpenerIsOnStack(ps, name, n, 0);
    if Innermost(st.stack, name).Some? {
      MirrorsWithout(st.stack, ps, open, Innermost(st.stack, name).value);
    }
    assert Unclosed(ps, n + 1) == WithoutLast(ps, open, name);
  }

  lemma OtherReflects(st: State, ps: seq<Piece>, n: nat)
    requires n < |ps| && (ps[n].Opened? || ps[n].Ignored?) && Reflects(st, ps, n)
    ensures Reflects(Take(st, ps[n]), ps, n + 1)
  {
    hide Utf16Len, Opener, WithoutLast, TextUpTo, OffsetOf;
    TextStays(ps, n);
    assert Paired(ps, n + 1) == Paired(ps, n);
  }

  lemma NewTagAt(lib: Library, content: string, pos: int)
    ensures NewTag(lib, content, pos) ==
      match NewTag(lib, content, 0) case None => None case Some(o) => Some(o.(offset := pos))
  {
  }

  function SizeOf(t: Token): nat { if t.Char? then 1 else t.size }

  lemma ScanTakes(lib: Library, st: State, s: string)
    requires s != [] && Scan(lib, st, s).Ok?
    ensures Pieces(lib, s) != []
    ensures var size := SizeOf(Look(lib, s));
      && 0 < size <= |s| && Pieces(lib, s)[1..] == Pieces(lib, s[size..])
      && Scan(lib, st, s) == Scan(lib, Take(st, Pieces(lib, s)[0]), s[size..])
  {
    hide NewTag, Emit, CloseTag;
    if Look(lib, s).Opening? { NewTagAt(lib, Look(lib, s).content, st.pos); }
  }

  lemma {:induction false} ScanReflects(lib: Library, st: State, s: string, ps: seq<Piece>, n: nat)
    requires n <= |ps| && ps[n..] == Pieces(lib, s) && Reflects(st, ps, n) && Scan(lib, st, s).Ok?
    ensures Reflects(Scan(lib, st, s).value, ps, |ps|)
    decreases |s|
  {
    hide Look, Take, Reflects;
    if s != [] {
      ScanTakes(lib, st, s);
      var size := SizeOf(Look(lib, s));
      assert ps[n..][1..] == ps[n + 1..];
      assert ps[n..][0] == ps[n];
      match ps[n] {
        case Written(_) => WrittenReflects(st, ps, n);
        case Closed(_) => ClosedReflects(st, ps, n);
        case _ => OtherReflects(st, ps, n);
      }
      ScanReflects(lib, Take(st, ps[n]), s[size..], ps, n + 1);
    }
  }

  /** Main result, for any input that does not raise, tags crossing as they may: the
      text is that of the pieces, and there is one entity, in closing order, for each
      closing tag that has an opener, from the end of the opener to the closing tag. */
  lemma EntitiesArePaired(lib: Library, html: string)
    requires Scan(lib, INITIAL, html).Ok?
    ensures var st, ps := Scan(lib, INITIAL, html).value, Pieces(lib, html);
      st.text == TextUpTo(ps, |ps|) && st.entities == Paired(ps, |ps|)
  {
    var ps := Pieces(lib, html);
    assert ps[0..] == ps;
    assert Encode("") == [];
    ScanReflects(lib, INITIAL, html, ps, 0);
  }
}
