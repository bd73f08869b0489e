/**
 Raw XML values: trees of tokens, the lazy reader that turns a tree into its tokens, the builder that
 turns tokens into a tree, and the writer.
 */
module RawXml {
  import opened Data

  datatype Name = Name(space: string, local: string)

  datatype Attr = Attr(name: Name, value: string)

  datatype Token =
    | StartElement(name: Name, attrs: seq<Attr>)
    | EndElement(name: Name)
    | CharData(text: string)
    | Comment(text: string)
    | ProcInst(target: string, inst: string)
    | Directive(text: string)

  /** `out` is set on values that can only be marshalled: the tokens its encoding produces. */
  datatype RawXMLValue = RawXMLValue(tok: Token, children: seq<RawXMLValue>, out: Option<seq<Token>>)

  // ---------------------------------------------------------------- trees and their tokens

  /** No marshal-only value, and no end tag, anywhere in the tree. */
  predicate Plain(v: RawXMLValue) {
    !v.tok.EndElement? && v.out.None? && forall c :: c in v.children ==> Plain(c)
  }

  /** A tree that nothing is hidden in: only elements have children. */
  predicate Canonical(v: RawXMLValue) {
    && !v.tok.EndElement? && v.out.None? && (v.tok.StartElement? || v.children == [])
    && forall c :: c in v.children ==> Canonical(c)
  }

  function Flatten(v: RawXMLValue): (ts: seq<Token>)
    ensures |ts| > 0
    decreases v, 1
  {
    if v.tok.StartElement? then [v.tok] + FlattenAll(v.children) + [EndElement(v.tok.name)] else [v.tok]
  }

  function FlattenAll(vs: seq<RawXMLValue>): seq<Token>
    decreases vs, 0
  {
    if vs == [] then [] else Flatten(vs[0]) + FlattenAll(vs[1..])
  }

  // ---------------------------------------------------------------- the lazy reader

  class Reader {
    const val: RawXMLValue
    var start: bool
    var end: bool
    var child: nat
    var childReader: Reader?
    /** The tokens still to come. */
    ghost var Todo: seq<Token>
    ghost var Repr: set<object>

    ghost predicate Valid()
      reads this, Repr
      decreases Repr
    {
      && this in Repr && Plain(val)
      && (childReader != null ==>
            childReader in Repr && childReader.Repr <= Repr && this !in childReader.Repr && childReader.Valid())
      && child <= |val.children|
      && (start ==> val.tok.StartElement?)
      && (val.tok.StartElement? && !start ==> !end && child == 0)
      && (childReader != null ==>
            start && !end && child < |val.children| && childReader.val == val.children[child])
      && (end ==> Todo == [])
      && (!end && !start ==> Todo == Flatten(val))
      && (!end && start ==>
            Todo == if childReader == null then After(val, child) else childReader.Todo + After(val, child + 1))
    }

    constructor (val: RawXMLValue)
      requires Plain(val)
      ensures Valid() && fresh(Repr) && this.val == val && Todo == Flatten(val)
    {
      this.val := val;
      start, end, child, childReader := false, false, 0, null;
      Todo := Flatten(val);
      Repr := {this};
    }

    /** The next token of the child that is being read; at its end, on to the next child. */
    method ChildToken() returns (tok: Option<Token>)
      requires Valid() && start && !end && childReader != null
      modifies Repr
      decreases val, 0
      ensures Valid() && fresh(Repr - old(Repr)) && start && !end
      ensures tok.None? ==> Todo == old(Todo) && child == old(child) + 1
      ensures tok.Some? ==> old(Todo) != [] && tok == Some(old(Todo)[0]) && Todo == old(Todo)[1..]
    {
      hide Flatten, FlattenAll, After, Plain;
      tok := childReader.Token();
      Repr := Repr + childReader.Repr;
      if tok.None? {
        childReader := null;
        child := child + 1;
      } else {
        Todo := Todo[1..];
      }
    }

    /** The next token, or None for io.EOF. */
    method Token() returns (r: Option<Token>)
      requires Valid()
      modifies Repr
      decreases val, 1
      ensures Valid() && fresh(Repr - old(Repr))
      ensures old(Todo) == [] ==> r == None && Todo == []
      ensures old(Todo) != [] ==> r == Some(old(Todo)[0]) && Todo == old(Todo)[1..]
    {
      hide Flatten, FlattenAll, After, Plain;
      if end {
        return None;
      }
      FlattenElement(val);
      if !val.tok.StartElement? {
        end, Todo := true, [];
        return Some(val.tok);
      }
      if !start {
        start, Todo := true, After(val, 0);
        return Some(val.tok);
      }
      while child < |val.children|
        invariant Valid() && fresh(Repr - old(Repr)) && start && !end
        invariant Todo == old(Todo)
        decreases |val.children| - child
      {
        if childReader == null {
          AfterNext(val, child);
          childReader := new Reader(val.children[child]);
          Repr := Repr + childReader.Repr;
        }
        var tok := ChildToken();
        if tok.Some? {
          return tok;
        }
      }
      AfterLast(val);
      end, Todo := true, [];
      r := Some(EndElement(val.tok.name));
    }
  }

  /** What an element still has to give from its i-th child on. */
  ghost function After(v: RawXMLValue, i: nat): seq<Token>
    requires i <= |v.children|
  {
    FlattenAll(v.children[i..]) + if v.tok.StartElement? then [EndElement(v.tok.name)] else []
  }

  lemma FlattenElement(v: RawXMLValue)
    ensures !v.tok.StartElement? ==> Flatten(v) == [v.tok]
    ensures v.tok.StartElement? ==> Flatten(v) == [v.tok] + After(v, 0)
  {
    assert v.children[0..] == v.children;
  }

  lemma AfterNext(v: RawXMLValue, i: nat)
    requires i < |v.children|
    ensures After(v, i) == Flatten(v.children[i]) + After(v, i + 1)
    ensures Plain(v) ==> Plain(v.children[i])
  {
    assert v.children[i..][1..] == v.children[i + 1..];
  }

  lemma AfterLast(v: RawXMLValue)
    requires v.tok.StartElement?
    ensures After(v, |v.children|) == [EndElement(v.tok.name)]
  {
  }

  /** Reading to the end, as a decoder does: exactly the flattening of the tree. */
  method ReadAll(v: RawXMLValue) returns (ts: seq<Token>)
    requires Plain(v)
    ensures ts == Flatten(v)
  {
    hide *;
    var reader := new Reader(v);
    ts := [];
    var tok := reader.Token();
    while tok.Some?
      invariant reader.Valid() && fresh(reader.Repr)
      invariant Flatten(v) == ts + (if tok.Some? then [tok.value] else []) + reader.Todo
      invariant tok.None? ==> reader.Todo == []
      decreases |Flatten(v)| - |ts|
    {
      ts := ts + [tok.value];
      tok := reader.Token();
    }
  }

  // ---------------------------------------------------------------- building a tree from tokens

  class Decoder {
    var tokens: seq<Token>

    constructor (tokens: seq<Token>)
      ensures this.tokens == tokens
    {
      this.tokens := tokens;
    }

    /** The next token, or None at the end of the input. */
    method Token() returns (r: Option<Token>)
      modifies this
      ensures old(tokens) == [] ==> r == None && tokens == []
      ensures old(tokens) != [] ==> r == Some(old(tokens)[0]) && tokens == old(tokens)[1..]
    {
      if tokens == [] {
        return None;
      }
      r := Some(tokens[0]);
      tokens := tokens[1..];
    }
  }

  function Leaf(tok: Token): RawXMLValue {
    RawXMLValue(tok, [], None)
  }

  datatype Parsed = Incomplete | Complete(children: seq<RawXMLValue>, rest: seq<Token>)

  /** The children an element gets from the tokens after its start tag, and what follows its end tag. */
  function Parse(ts: seq<Token>): (r: Parsed)
    ensures r.Complete? ==> |r.rest| < |ts|
    decreases |ts|
  {
    if ts == [] then Incomplete
    else if ts[0].EndElement? then Complete([], ts[1..])
    else if ts[0].StartElement? then
      var inner := Parse(ts[1..]);
      if inner.Incomplete? then Incomplete
      else Prepend([RawXMLValue(ts[0], inner.children, None)], Parse(inner.rest))
    else Prepend([Leaf(ts[0])], Parse(ts[1..]))
  }

  function Prepend(cs: seq<RawXMLValue>, r: Parsed): Parsed {
    if r.Incomplete? then Incomplete else Complete(cs + r.children, r.rest)
  }

  lemma PrependTwice(a: seq<RawXMLValue>, b: seq<RawXMLValue>, r: Parsed)
    ensures Prepend(a, Prepend(b, r)) == Prepend(a + b, r) && Prepend([], r) == r
  {
    if r.Complete? {
      assert a + (b + r.children) == a + b + r.children;
      assert [] + r.children == r.children;
    }
  }

  method UnmarshalXML(d: Decoder, start: Token) returns (r: Option<RawXMLValue>)
    requires start.StartElement?
    modifies d
    decreases |d.tokens|
    ensures Parse(old(d.tokens)).Complete? ==>
      r == Some(RawXMLValue(start, Parse(old(d.tokens)).children, None)) && d.tokens == Parse(old(d.tokens)).rest
    ensures Parse(old(d.tokens)).Incomplete? ==> r == None && d.tokens == []
  {
    var children: seq<RawXMLValue> := [];
    PrependTwice([], [], Parse(d.tokens));
    while true
      invariant |d.tokens| <= old(|d.tokens|)
      invariant Parse(old(d.tokens)) == Prepend(children, Parse(d.tokens))
      decreases |d.tokens|
    {
      ghost var before := d.tokens;
      var tok := d.Token();
      if tok.None? {
        return None;
      }
      match tok.value
      case StartElement(_, _) =>
        var child := UnmarshalXML(d, tok.value);
        if child.None? {
          return None;
        }
        PrependTwice(children, [child.value], Parse(d.tokens));
        children := children + [child.value];
      case EndElement(_) =>
        assert children + [] == children;
        return Some(RawXMLValue(start, children, None));
      case _ =>
        PrependTwice(children, [Leaf(tok.value)], Parse(d.tokens));
        children := children + [Leaf(tok.value)];
    }
  }

  // ---------------------------------------------------------------- what the builder builds

  /** The builder undoes the flattening and leaves what follows, whatever that is. */
  lemma {:induction false} ParseFlatten(cs: seq<RawXMLValue>, name: Name, rest: seq<Token>)
    requires forall c :: c in cs ==> Canonical(c)
    ensures Parse(FlattenAll(cs) + [EndElement(name)] + rest) == Complete(cs, rest)
    decreases cs
  {
    var ts := FlattenAll(cs) + [EndElement(name)] + rest;
    if cs == [] {
      assert ts == [EndElement(name)] + rest;
      assert ts[1..] == rest;
    } else {
      var c, more := cs[0], cs[1..];
      assert cs == [c] + more;
      assert c in cs;
      var tail := FlattenAll(more) + [EndElement(name)] + rest;
      ParseFlatten(more, name, rest);
      assert ts == Flatten(c) + tail;
      ParseOne(c, tail);
    }
  }

  lemma {:induction false} ParseOne(c: RawXMLValue, tail: seq<Token>)
    requires Canonical(c)
    ensures Parse(Flatten(c) + tail) == Prepend([c], Parse(tail))
    decreases c
  {
    var ts := Flatten(c) + tail;
    if c.tok.StartElement? {
      var inner := FlattenAll(c.children) + [EndElement(c.tok.name)] + tail;
      assert ts == [c.tok] + inner;
      assert ts[0] == c.tok && ts[1..] == inner;
      ParseFlatten(c.children, c.tok.name, tail);
      assert c == RawXMLValue(c.tok, c.children, None);
    } else {
      assert ts == [c.tok] + tail;
      assert ts[1..] == tail;
      assert c == Leaf(c.tok);
    }
  }

  /** Start tags minus end tags. */
  function Balance(ts: seq<Token>): int {
    if ts == [] then 0 else Balance(ts[..|ts| - 1]) + Weight(ts[|ts| - 1])
  }

  function Weight(t: Token): int {
    if t.StartElement? then 1 else if t.EndElement? then -1 else 0
  }

  lemma {:induction false} BalanceConcat(a: seq<Token>, b: seq<Token>)
    ensures Balance(a + b) == Balance(a) + Balance(b)
    decreases |b|
  {
    if b == [] {
      assert a + b == a;
    } else {
      BalanceConcat(a, b[..|b| - 1]);
      assert (a + b)[..|a + b| - 1] == a + b[..|b| - 1];
    }
  }

  /** The element ends where, for the first time, there is one more end tag than start tags. */
  predicate EndsAt(ts: seq<Token>, n: nat) {
    n <= |ts| && Balance(ts[..n]) == -1 && forall m :: 0 <= m < n ==> Balance(ts[..m]) >= 0
  }

  /** The tokens before `rest` are those up to the end of the element. */
  predicate Takes(ts: seq<Token>, rest: seq<Token>) {
    |rest| <= |ts| && EndsAt(ts, |ts| - |rest|) && rest == ts[|ts| - |rest|..]
  }

  /** The element has no end. */
  predicate NeverEnds(ts: seq<Token>) {
    forall n :: 0 <= n <= |ts| ==> Balance(ts[..n]) >= 0
  }

  lemma BalanceOne(t: Token)
    ensures Balance([t]) == Weight(t)
  {
    assert [t][..0] == [];
  }

  /** The builder takes exactly the tokens up to there. */
  lemma {:induction false} ParseTakes(ts: seq<Token>)
    ensures Parse(ts).Complete? ==> Takes(ts, Parse(ts).rest)
    ensures Parse(ts).Incomplete? ==> NeverEnds(ts)
    decreases |ts|
  {
    hide Balance, Takes, NeverEnds;
    if ts == [] {
      TakesNone(ts);
    } else if ts[0].EndElement? {
      TakesEnd(ts);
    } else if ts[0].StartElement? {
      ParseTakes(ts[1..]);
      var inner := Parse(ts[1..]);
      if inner.Incomplete? {
        TakesNothing(ts);
      } else {
        ParseTakes(inner.rest);
        TakesBoth(ts, inner.rest, Parse(inner.rest));
      }
    } else {
      ParseTakes(ts[1..]);
      if Parse(ts[1..]).Incomplete? {
        TakesNothing(ts);
      } else {
        TakesLeaf(ts, Parse(ts[1..]).rest);
      }
    }
  }

  lemma TakesNone(ts: seq<Token>)
    requires ts == []
    ensures NeverEnds(ts)
  {
  }

  lemma TakesEnd(ts: seq<Token>)
    requires ts != [] && ts[0].EndElement?
    ensures Takes(ts, ts[1..])
  {
    BalanceOne(ts[0]);
    assert ts[..1] == [ts[0]];
    assert ts[..0] == [];
  }

  lemma TakesNothing(ts: seq<Token>)
    requires ts != [] && !ts[0].EndElement? && NeverEnds(ts[1..])
    ensures NeverEnds(ts)
  {
    forall n | 0 <= n <= |ts| ensures Balance(ts[..n]) >= 0 {
      BalanceAfter(ts, n);
    }
  }

  lemma TakesLeaf(ts: seq<Token>, rest: seq<Token>)
    requires ts != [] && Weight(ts[0]) == 0 && Takes(ts[1..], rest)
    ensures Takes(ts, rest)
  {
    hide Balance;
    forall n | 0 <= n <= |ts|
      ensures n == 0 ==> Balance(ts[..n]) == 0
      ensures n > 0 ==> Balance(ts[..n]) == Balance(ts[1..][..n - 1])
    {
      BalanceAfter(ts, n);
    }
  }

  lemma BalanceAfter(ts: seq<Token>, n: nat)
    requires 0 < |ts| && n <= |ts|
    ensures n > 0 ==> Balance(ts[..n]) == Balance([ts[0]]) + Balance(ts[1..][..n - 1])
    ensures n == 0 ==> Balance(ts[..n]) == 0
    ensures Balance([ts[0]]) == Weight(ts[0])
  {
    BalanceOne(ts[0]);
    if n > 0 {
      assert ts[..n] == [ts[0]] + ts[1..][..n - 1];
      BalanceConcat([ts[0]], ts[1..][..n - 1]);
    }
  }

  /** An element, then what follows it. */
  lemma TakesBoth(ts: seq<Token>, mid: seq<Token>, last: Parsed)
    requires ts != [] && ts[0].StartElement? && Takes(ts[1..], mid)
    requires last.Complete? ==> Takes(mid, last.rest)
    requires last.Incomplete? ==> NeverEnds(mid)
    ensures last.Complete? ==> Takes(ts, last.rest)
    ensures last.Incomplete? ==> NeverEnds(ts)
  {
    hide Balance;
    var i := |ts| - |mid|;
    assert mid == ts[i..];
    forall n | 0 <= n <= |ts|
      ensures n < i ==> Balance(ts[..n]) >= 0
      ensures n >= i ==> Balance(ts[..n]) == Balance(mid[..n - i])
    {
      BalanceAfter(ts, n);
      BalanceAfter(ts, i);
      if n >= i {
        assert ts[..n] == ts[..i] + mid[..n - i];
        BalanceConcat(ts[..i], mid[..n - i]);
      }
    }
  }

  /** UnmarshalXML fails exactly when the element is never closed. */
  lemma ParseFailsIff(ts: seq<Token>)
    ensures Parse(ts).Incomplete? <==> NeverEnds(ts)
  {
    ParseTakes(ts);
    var r := Parse(ts);
    if r.Complete? {
      assert Balance(ts[..|ts| - |r.rest|]) == -1;
    }
  }

  // ---------------------------------------------------------------- well-nested input

  /** What a strict decoder guarantees: each end tag names the innermost open element. */
  predicate WellNested(ts: seq<Token>, open: seq<Name>) {
    if ts == [] then true
    else match ts[0]
      case StartElement(name, _) => WellNested(ts[1..], [name] + open)
      case EndElement(name) => open != [] && open[0] == name && WellNested(ts[1..], open[1..])
      case _ => WellNested(ts[1..], open)
  }

  /** On well-nested input nothing is lost: the tokens taken are those of the tree and the end tag. */
  lemma {:induction false} ParseExact(ts: seq<Token>, open: seq<Name>)
    requires WellNested(ts, open) && Parse(ts).Complete?
    ensures open != [] && forall c :: c in Parse(ts).children ==> Canonical(c)
    ensures ts == FlattenAll(Parse(ts).children) + [EndElement(open[0])] + Parse(ts).rest
    ensures WellNested(Parse(ts).rest, open[1..])
    decreases |ts|
  {
    hide Flatten, FlattenAll;
    FlattenNone();
    assert ts == [ts[0]] + ts[1..];
    if ts[0].StartElement? {
      var inner := Parse(ts[1..]);
      ParseExact(ts[1..], [ts[0].name] + open);
      assert ([ts[0].name] + open)[1..] == open;
      ParseExact(inner.rest, open);
      var c := RawXMLValue(ts[0], inner.children, None);
      FlattenCons(c, Parse(inner.rest).children);
      CanonicalElement(c);
      assert Parse(ts).children == [c] + Parse(inner.rest).children;
      var more := Parse(inner.rest);
      Bracketed(ts[0], FlattenAll(inner.children), EndElement(ts[0].name),
        FlattenAll(more.children) + [EndElement(open[0])], more.rest);
    } else if !ts[0].EndElement? {
      ParseExact(ts[1..], open);
      FlattenCons(Leaf(ts[0]), Parse(ts[1..]).children);
      CanonicalElement(Leaf(ts[0]));
    }
  }

  lemma Bracketed<T>(s: T, a: seq<T>, e: T, b: seq<T>, r: seq<T>)
    ensures [s] + (a + [e] + (b + r)) == [s] + a + [e] + b + r
  {
  }

  lemma FlattenNone()
    ensures FlattenAll([]) == []
  {
  }

  lemma CanonicalElement(c: RawXMLValue)
    ensures c.tok.StartElement? ==> Flatten(c) == [c.tok] + FlattenAll(c.children) + [EndElement(c.tok.name)]
    ensures !c.tok.StartElement? ==> Flatten(c) == [c.tok]
  {
  }

  lemma FlattenCons(c: RawXMLValue, more: seq<RawXMLValue>)
    ensures FlattenAll([c] + more) == Flatten(c) + FlattenAll(more)
  {
    assert ([c] + more)[1..] == more;
  }

  // ---------------------------------------------------------------- writing a tree

  /** Where tokens are written; writing may fail. */
  class Encoder {
    var written: seq<Token>

    constructor ()
      ensures written == []
    {
      written := [];
    }

    method EncodeToken(t: Token) returns (ok: bool)
      modifies this
      ensures written == if ok then old(written) + [t] else old(written)
    {
      ok := *;
      if ok {
        written := written + [t];
      }
    }

    method Encode(ts: seq<Token>) returns (ok: bool)
      modifies this
      ensures old(written) <= written <= old(written) + ts
      ensures ok ==> written == old(written) + ts
    {
      var n: nat :| n <= |ts|;
      assert written + ts == written + ts[..n] + ts[n..];
      written := written + ts[..n];
      ok := n == |ts|;
    }
  }

  /** No end tag where the writer would meet it: what a marshal-only value hides does not matter. */
  predicate Writable(v: RawXMLValue) {
    v.out.Some? || (!v.tok.EndElement? && (v.tok.StartElement? ==> forall c :: c in v.children ==> Writable(c)))
  }

  /** What is written for a tree: a marshal-only value stands for its own encoding. */
  function Written(v: RawXMLValue): seq<Token>
    decreases v, 1
  {
    if v.out.Some? then v.out.value
    else if v.tok.StartElement? then [v.tok] + WrittenAll(v.children) + [EndElement(v.tok.name)]
    else [v.tok]
  }

  function WrittenAll(vs: seq<RawXMLValue>): seq<Token>
    decreases vs, 0
  {
    if vs == [] then [] else Written(vs[0]) + WrittenAll(vs[1..])
  }

  lemma {:induction false} WrittenSnoc(vs: seq<RawXMLValue>, v: RawXMLValue)
    ensures WrittenAll(vs + [v]) == WrittenAll(vs) + Written(v)
    decreases |vs|
  {
    if vs == [] {
      assert vs + [v] == [v];
    } else {
      WrittenSnoc(vs[1..], v);
      assert (vs + [v])[1..] == vs[1..] + [v];
    }
  }

  lemma {:induction false} WrittenSplits(vs: seq<RawXMLValue>, n: nat)
    requires n <= |vs|
    ensures WrittenAll(vs) == WrittenAll(vs[..n]) + WrittenAll(vs[n..])
    decreases n
  {
    if n == 0 {
      assert vs[..0] == [] && vs[0..] == vs;
    } else {
      WrittenSplits(vs[1..], n - 1);
      assert vs[..n][1..] == vs[1..][..n - 1] && vs[1..][n - 1..] == vs[n..];
    }
  }

  function Chained(parts: seq<seq<Token>>): seq<Token>
    decreases |parts|
  {
    if parts == [] then [] else parts[0] + Chained(parts[1..])
  }

  /** ts says what v is: a marshal-only value is exactly its encoding, an element its start tag, each of its
      children in order, and its end tag, and anything else itself. */
  ghost predicate Spells(v: RawXMLValue, ts: seq<Token>)
    decreases v
  {
    if v.out.Some? then ts == v.out.value
    else if v.tok.StartElement? then
      exists parts: seq<seq<Token>> ::
        && |parts| == |v.children| && ts == [v.tok] + Chained(parts) + [EndElement(v.tok.name)]
        && forall i :: 0 <= i < |parts| ==> Spells(v.children[i], parts[i])
    else ts == [v.tok]
  }

  lemma {:induction false} WrittenSpells(v: RawXMLValue)
    ensures Spells(v, Written(v))
    decreases v, 1
  {
    if v.out.None? && v.tok.StartElement? {
      var parts := PartsOf(v.children);
      assert Written(v) == [v.tok] + Chained(parts) + [EndElement(v.tok.name)];
    }
  }

  lemma {:induction false} PartsOf(vs: seq<RawXMLValue>) returns (parts: seq<seq<Token>>)
    ensures |parts| == |vs| && Chained(parts) == WrittenAll(vs)
    ensures forall i :: 0 <= i < |parts| ==> Spells(vs[i], parts[i])
    decreases vs, 0
  {
    if vs == [] {
      parts := [];
    } else {
      WrittenSpells(vs[0]);
      var rest := PartsOf(vs[1..]);
      parts := [Written(vs[0])] + rest;
      assert parts[1..] == rest;
      assert forall i :: 1 <= i < |parts| ==> vs[i] == vs[1..][i - 1];
    }
  }

  /** If nothing fails exactly the tree is written, otherwise a beginning of it. */
  method MarshalXML(v: RawXMLValue, e: Encoder) returns (ok: bool, ghost out: seq<Token>)
    requires Writable(v)
    modifies e
    decreases v
    ensures e.written == old(e.written) + out && out <= Written(v)
    ensures ok ==> out == Written(v)
    ensures ok ==> Spells(v, out)
    ensures ok && v.out.Some? ==> e.written == old(e.written) + v.out.value
  {
    hide Writable, WrittenAll, Spells, Written;
    WritableIs(v);
    WrittenIs(v);
    WrittenSpells(v);
    if v.out.Some? {
      ok := e.Encode(v.out.value);
      out := e.written[|old(e.written)|..];
      return;
    }
    ok := e.EncodeToken(v.tok);
    out := if ok then [v.tok] else [];
    if !ok || !v.tok.StartElement? {
      return;
    }
    for i := 0 to |v.children|
      invariant out == [v.tok] + WrittenAll(v.children[..i])
      invariant e.written == old(e.written) + out
    {
      ghost var o;
      ok, o := MarshalXML(v.children[i], e);
      Append3(old(e.written), out, o);
      ChildWritten(v, i, o);
      out := out + o;
      if !ok {
        return;
      }
    }
    assert v.children[..|v.children|] == v.children;
    ok := e.EncodeToken(EndElement(v.tok.name));
    Append3(old(e.written), out, [EndElement(v.tok.name)]);
    out := out + if ok then [EndElement(v.tok.name)] else [];
  }

  /** After i children and what has been written of the next one. */
  lemma ChildWritten(v: RawXMLValue, i: nat, o: seq<Token>)
    requires v.out.None? && v.tok.StartElement? && i < |v.children| && o <= Written(v.children[i])
    ensures var before := [v.tok] + WrittenAll(v.children[..i]);
      && before + o <= Written(v)
      && (o == Written(v.children[i]) ==> before + o == [v.tok] + WrittenAll(v.children[..i + 1]))
  {
    hide Written, WrittenAll;
    var a := WrittenAll(v.children[..i]);
    WrittenSnoc(v.children[..i], v.children[i]);
    assert v.children[..i + 1] == v.children[..i] + [v.children[i]];
    Append3([v.tok], a, o);
    WrittenSplits(v.children, i + 1);
    WrittenBegins(v, a + o, WrittenAll(v.children[..i + 1]), WrittenAll(v.children[i + 1..]));
  }

  lemma WrittenIs(v: RawXMLValue)
    ensures Written(v) ==
      if v.out.Some? then v.out.value
      else if v.tok.StartElement? then [v.tok] + WrittenAll(v.children) + [EndElement(v.tok.name)]
      else [v.tok]
    ensures [v.tok] <= Written(v) || v.out.Some?
  {
    hide WrittenAll;
  }

  lemma WritableIs(v: RawXMLValue)
    requires Writable(v)
    ensures v.out.None? && v.tok.StartElement? ==> forall c :: c in v.children ==> Writable(c)
    ensures WrittenAll([]) == []
  {
  }

  lemma Append3<T>(a: seq<T>, b: seq<T>, c: seq<T>)
    ensures a + b + c == a + (b + c)
  {
  }

  lemma WrittenBegins(v: RawXMLValue, o: seq<Token>, a: seq<Token>, b: seq<Token>)
    requires v.out.None? && v.tok.StartElement? && WrittenAll(v.children) == a + b && o <= a
    ensures [v.tok] + o <= Written(v)
  {
    hide WrittenAll;
  }

  /** Writing and reading agree: what is written for a tree without marshal-only values is what its
      reader gives. */
  lemma {:induction false} WrittenIsRead(v: RawXMLValue)
    requires Plain(v)
    ensures Written(v) == Flatten(v) && Writable(v)
    decreases v, 1
  {
    WrittenAllRead(v.children);
  }

  lemma {:induction false} WrittenAllRead(vs: seq<RawXMLValue>)
    requires forall v :: v in vs ==> Plain(v)
    ensures WrittenAll(vs) == FlattenAll(vs) && forall v :: v in vs ==> Writable(v)
    decreases vs, 0
  {
    if vs != [] {
      assert vs == [vs[0]] + vs[1..];
      assert vs[0] in vs;
      WrittenIsRead(vs[0]);
      WrittenAllRead(vs[1..]);
    }
  }

  /** A tree survives being written and built again, whatever follows it in the input. */
  lemma RoundTrip(v: RawXMLValue, rest: seq<Token>)
    requires Canonical(v) && v.tok.StartElement?
    ensures Written(v)[0] == v.tok
    ensures Parse(Written(v)[1..] + rest) == Complete(v.children, rest)
    ensures v == RawXMLValue(v.tok, Parse(Written(v)[1..] + rest).children, None)
  {
    hide *;
    CanonicalPlain(v);
    CanonicalIs(v);
    WrittenIs(v);
    WrittenAllRead(v.children);
    ParseFlatten(v.children, v.tok.name, rest);
    assert Written(v)[1..] == FlattenAll(v.children) + [EndElement(v.tok.name)];
  }

  lemma CanonicalIs(v: RawXMLValue)
    requires Canonical(v)
    ensures v.out.None? && forall c :: c in v.children ==> Canonical(c) && Plain(c)
  {
    forall c | c in v.children ensures Plain(c) {
      CanonicalPlain(c);
    }
  }

  /** w is v with some of its values already encoded: these are marshal-only and stand for their tokens. */
  ghost predicate Encodes(w: RawXMLValue, v: RawXMLValue)
    decreases v
  {
    || w.out == Some(Flatten(v))
    || (w.out.None? && w.tok == v.tok && |w.children| == |v.children|
        && forall i :: 0 <= i < |v.children| ==> Encodes(w.children[i], v.children[i]))
  }

  /** Encoding parts of a tree beforehand does not change what is written. */
  lemma {:induction false} EncodedWritesSame(w: RawXMLValue, v: RawXMLValue)
    requires Plain(v) && Encodes(w, v)
    ensures Written(w) == Flatten(v) && Writable(w)
    decreases v, 1
  {
    if w.out.None? {
      EncodedAllSame(w.children, v.children);
    }
  }

  lemma {:induction false} EncodedAllSame(ws: seq<RawXMLValue>, vs: seq<RawXMLValue>)
    requires |ws| == |vs| && (forall v :: v in vs ==> Plain(v))
    requires forall i :: 0 <= i < |vs| ==> Encodes(ws[i], vs[i])
    ensures WrittenAll(ws) == FlattenAll(vs) && forall w :: w in ws ==> Writable(w)
    decreases vs, 0
  {
    if vs != [] {
      assert ws == [ws[0]] + ws[1..];
      assert vs[0] in vs;
      EncodedWritesSame(ws[0], vs[0]);
      EncodedAllSame(ws[1..], vs[1..]);
    }
  }

  /** So a tree is built again whole, whichever of its parts were encoded beforehand. */
  lemma EncodedRoundTrip(w: RawXMLValue, v: RawXMLValue, rest: seq<Token>)
    requires Canonical(v) && v.tok.StartElement? && Encodes(w, v)
    ensures Written(w)[..1] == [v.tok] && Parse(Written(w)[1..] + rest) == Complete(v.children, rest)
  {
    hide Canonical, Plain, Encodes, Parse;
    CanonicalPlain(v);
    EncodedWritesSame(w, v);
    WrittenIsRead(v);
    RoundTrip(v, rest);
  }

  lemma CanonicalPlain(v: RawXMLValue)
    requires Canonical(v)
    ensures Plain(v)
  {
    forall c | c in v.children ensures Plain(c) {
      CanonicalPlain(c);
    }
  }
}
