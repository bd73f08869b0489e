/**
 Properties of a WebDAV response, kept by the status they are reported with
 (section 14.22 of RFC 4918).
 */
module MultiStatus {
  import opened Data
  import opened RawXml

  datatype PropStat = PropStat(code: int, raw: seq<RawXMLValue>)

  datatype Call = Call(code: int, raw: RawXMLValue)

  const OK := 200
  const NOT_FOUND := 404

  // ---------------------------------------------------------------- grouping

  /** The codes used, in the order they first appear. */
  function Codes(calls: seq<Call>): (r: seq<int>)
    ensures forall c :: c in r <==> exists i :: 0 <= i < |calls| && calls[i].code == c
    ensures forall i, j :: 0 <= i < j < |r| ==> r[i] != r[j]
  {
    if calls == [] then []
    else
      var front, c := Codes(calls[..|calls| - 1]), calls[|calls| - 1].code;
      if c in front then front else front + [c]
  }

  /** The values reported with a code, in call order. */
  function Select(calls: seq<Call>, code: int): seq<RawXMLValue> {
    if calls == [] then []
    else
      var last := calls[|calls| - 1];
      Select(calls[..|calls| - 1], code) + if last.code == code then [last.raw] else []
  }

  /** One group for each code, with the values reported with it. */
  function Groups(calls: seq<Call>): seq<PropStat> {
    seq(|Codes(calls)|, i requires 0 <= i < |Codes(calls)| => PropStat(Codes(calls)[i], Select(calls, Codes(calls)[i])))
  }

  function Append(p: PropStat, raw: RawXMLValue): PropStat {
    PropStat(p.code, p.raw + [raw])
  }

  lemma SelectSnoc(calls: seq<Call>, call: Call, code: int)
    ensures Select(calls + [call], code) == Select(calls, code) + if call.code == code then [call.raw] else []
  {
    assert (calls + [call])[..|calls|] == calls;
  }

  lemma CodesSnoc(calls: seq<Call>, call: Call)
    ensures Codes(calls + [call]) == Codes(calls) + if call.code in Codes(calls) then [] else [call.code]
  {
    assert (calls + [call])[..|calls|] == calls;
  }

  lemma {:induction false} SelectNone(calls: seq<Call>, code: int)
    requires code !in Codes(calls)
    ensures Select(calls, code) == []
    decreases |calls|
  {
    if calls != [] {
      SelectNone(calls[..|calls| - 1], code);
      assert calls[|calls| - 1].code in Codes(calls);
    }
  }

  lemma GroupsKnown(calls: seq<Call>, call: Call, i: nat)
    requires i < |Groups(calls)| && Groups(calls)[i].code == call.code
    ensures Groups(calls + [call]) == Groups(calls)[i := Append(Groups(calls)[i], call.raw)]
  {
    CodesSnoc(calls, call);
    forall j | 0 <= j < |Codes(calls)|
      ensures Groups(calls + [call])[j] == Groups(calls)[i := Append(Groups(calls)[i], call.raw)][j]
    {
      SelectSnoc(calls, call, Codes(calls)[j]);
    }
  }

  lemma GroupsNew(calls: seq<Call>, call: Call)
    requires forall p :: p in Groups(calls) ==> p.code != call.code
    ensures Groups(calls + [call]) == Groups(calls) + [PropStat(call.code, [call.raw])]
  {
    var n := |Codes(calls)|;
    assert call.code !in Codes(calls) by {
      assert forall j :: 0 <= j < n ==> Groups(calls)[j].code == Codes(calls)[j];
    }
    CodesSnoc(calls, call);
    SelectNone(calls, call.code);
    forall j | 0 <= j < n + 1
      ensures Groups(calls + [call])[j] == (Groups(calls) + [PropStat(call.code, [call.raw])])[j]
    {
      SelectSnoc(calls, call, Codes(calls + [call])[j]);
    }
  }

  /** A response with a status of its own, other than 2xx, is an error as a whole. */
  predicate Failing(status: Option<int>) {
    status.Some? && !(200 <= status.value < 300)
  }

  class Response {
    const status: Option<int>
    var propStats: seq<PropStat>
    /** The calls made so far. */
    ghost var calls: seq<Call>

    ghost predicate Valid()
      reads this
    {
      propStats == Groups(calls)
    }

    constructor (status: Option<int>)
      ensures Valid() && propStats == [] && calls == [] && this.status == status
    {
      this.status := status;
      propStats, calls := [], [];
    }

    method EncodeProp(code: int, raw: RawXMLValue)
      requires Valid()
      modifies this
      ensures Valid() && calls == old(calls) + [Call(code, raw)]
      ensures
        if exists i :: 0 <= i < |old(propStats)| && old(propStats)[i].code == code
        then exists i :: 0 <= i < |old(propStats)| && old(propStats)[i].code == code
                      && propStats == old(propStats)[i := PropStat(code, old(propStats)[i].raw + [raw])]
        else propStats == old(propStats) + [PropStat(code, [raw])]
    {
      calls := calls + [Call(code, raw)];
      for i := 0 to |propStats|
        invariant propStats == old(propStats)
        invariant forall j :: 0 <= j < i ==> propStats[j].code != code
      {
        if propStats[i].code == code {
          GroupsKnown(old(calls), Call(code, raw), i);
          propStats := propStats[i := Append(propStats[i], raw)];
          return;
        }
      }
      GroupsNew(old(calls), Call(code, raw));
      propStats := propStats + [PropStat(code, [raw])];
    }

    /** What is reported of a property: its value, or the status it is refused with. Of several only the
        first is looked up. */
    method DecodeProp(names: seq<Name>) returns (r: Option<Reply>)
      ensures r.None? <==> names == []
      ensures r.Some? ==> r.value == if Failing(status) then Refused(status.value) else Reported(propStats, names[0])
      ensures names != [] && status.Some? && (status.value < 200 || status.value >= 300) ==>
        r == Some(Refused(status.value))
      ensures names != [] && (status.None? || 200 <= status.value < 300) ==>
        r.Some? && FirstDecides(propStats, names[0], r.value)
    {
      hide Get, FirstDecides;
      if names != [] { ReportedFirst(propStats, names[0]); }
      for n := 0 to |names|
        invariant n == 0
      {
        var name := names[n];
        if Failing(status) {
          return Some(Refused(status.value));
        }
        for i := 0 to |propStats|
          invariant Reported(propStats, name) == Reported(propStats[i..], name)
        {
          var raw := Get(propStats[i].raw, name);
          if raw.Some? {
            return Some(if propStats[i].code != OK then Refused(propStats[i].code) else Value(raw.value));
          }
        }
        return Some(Refused(NOT_FOUND));
      }
      return None;
    }
  }

  // ---------------------------------------------------------------- nothing is lost

  /** Everything the groups hold, each value with its code. */
  function Flat(ps: seq<PropStat>): multiset<Call> {
    if ps == [] then multiset{} else Tagged(ps[0].code, ps[0].raw) + Flat(ps[1..])
  }

  function Tagged(code: int, raw: seq<RawXMLValue>): multiset<Call> {
    multiset(seq(|raw|, i requires 0 <= i < |raw| => Call(code, raw[i])))
  }

  lemma TaggedSnoc(code: int, raw: seq<RawXMLValue>, v: RawXMLValue)
    ensures Tagged(code, raw + [v]) == Tagged(code, raw) + multiset{Call(code, v)}
  {
    var a := seq(|raw|, i requires 0 <= i < |raw| => Call(code, raw[i]));
    var b := seq(|raw + [v]|, i requires 0 <= i < |raw + [v]| => Call(code, (raw + [v])[i]));
    assert b == a + [Call(code, v)];
  }

  lemma {:induction false} FlatAppend(ps: seq<PropStat>, i: nat, v: RawXMLValue)
    requires i < |ps|
    ensures Flat(ps[i := Append(ps[i], v)]) == Flat(ps) + multiset{Call(ps[i].code, v)}
    decreases i
  {
    var ps' := ps[i := Append(ps[i], v)];
    if i == 0 {
      assert ps'[1..] == ps[1..];
      TaggedSnoc(ps[0].code, ps[0].raw, v);
    } else {
      assert ps'[1..] == ps[1..][i - 1 := Append(ps[i], v)];
      FlatAppend(ps[1..], i - 1, v);
    }
  }

  lemma {:induction false} FlatSnoc(ps: seq<PropStat>, p: PropStat)
    ensures Flat(ps + [p]) == Flat(ps) + Tagged(p.code, p.raw)
  {
    if ps == [] {
      assert [] + [p] == [p] && [p][1..] == [];
    } else {
      assert (ps + [p])[1..] == ps[1..] + [p];
      FlatSnoc(ps[1..], p);
    }
  }

  lemma FlatGroups(calls: seq<Call>, call: Call)
    ensures Flat(Groups(calls + [call])) == Flat(Groups(calls)) + multiset{call}
  {
    hide Groups, Flat, Tagged;
    if i :| 0 <= i < |Groups(calls)| && Groups(calls)[i].code == call.code {
      GroupsKnown(calls, call, i);
      FlatAppend(Groups(calls), i, call.raw);
    } else {
      GroupsNew(calls, call);
      FlatSnoc(Groups(calls), PropStat(call.code, [call.raw]));
      TaggedOne(call.code, call.raw);
    }
  }

  lemma TaggedOne(code: int, v: RawXMLValue)
    ensures Tagged(code, [v]) == multiset{Call(code, v)}
  {
    assert seq(|[v]|, i requires 0 <= i < |[v]| => Call(code, [v][i])) == [Call(code, v)];
  }

  /** Over every sequence of calls: the groups hold exactly the values of the calls, each under its own
      code and as often as it was given, and no code has two groups. */
  lemma {:induction false} NoneLost(calls: seq<Call>)
    ensures Flat(Groups(calls)) == multiset(calls)
    ensures forall i, j :: 0 <= i < j < |Groups(calls)| ==> Groups(calls)[i].code != Groups(calls)[j].code
    decreases |calls|
  {
    if calls == [] {
      assert Groups(calls) == [];
    } else {
      var front, call := calls[..|calls| - 1], calls[|calls| - 1];
      assert calls == front + [call];
      NoneLost(front);
      FlatGroups(front, call);
    }
  }

  /** The values of a code stand in call order: earlier calls give a prefix. */
  lemma {:induction false} SelectGrows(calls: seq<Call>, more: seq<Call>, code: int)
    ensures Select(calls, code) <= Select(calls + more, code)
    ensures |Select(calls + more, code)| == |Select(calls, code)| + |Select(more, code)|
    decreases |more|
  {
    if more == [] {
      assert calls + more == calls;
    } else {
      var front, call := more[..|more| - 1], more[|more| - 1];
      SelectGrows(calls, front, code);
      assert calls + more == calls + front + [call] && more == front + [call];
      SelectSnoc(calls + front, call, code);
      SelectSnoc(front, call, code);
    }
  }

  // ---------------------------------------------------------------- finding a property

  function XMLName(v: RawXMLValue): Option<Name> {
    if v.tok.StartElement? then Some(v.tok.name) else None
  }

  /** The first value with a name. */
  function Get(raw: seq<RawXMLValue>, name: Name): (r: Option<RawXMLValue>)
    ensures r.None? <==> forall v :: v in raw ==> XMLName(v) != Some(name)
    ensures r.Some? ==> r.value in raw && XMLName(r.value) == Some(name)
  {
    if raw == [] then None else if XMLName(raw[0]) == Some(name) then Some(raw[0]) else Get(raw[1..], name)
  }

  datatype Reply = Value(raw: RawXMLValue) | Refused(code: int)

  function Reported(ps: seq<PropStat>, name: Name): Reply {
    if ps == [] then Refused(NOT_FOUND)
    else match Get(ps[0].raw, name)
      case None => Reported(ps[1..], name)
      case Some(raw) => if ps[0].code != OK then Refused(ps[0].code) else Value(raw)
  }

  /** Some group has a value with this name. */
  ghost predicate Named(ps: seq<PropStat>, name: Name) {
    exists i, k :: 0 <= i < |ps| && 0 <= k < |ps[i].raw| && XMLName(ps[i].raw[k]) == Some(name)
  }

  /** The k-th value of the i-th group is the first one with this name. */
  ghost predicate FirstNamed(ps: seq<PropStat>, name: Name, i: int, k: int) {
    && 0 <= i < |ps| && 0 <= k < |ps[i].raw| && XMLName(ps[i].raw[k]) == Some(name)
    && (forall l :: 0 <= l < k ==> XMLName(ps[i].raw[l]) != Some(name))
    && (forall j, l :: 0 <= j < i && 0 <= l < |ps[j].raw| ==> XMLName(ps[j].raw[l]) != Some(name))
  }

  lemma {:induction false} GetIs(raw: seq<RawXMLValue>, name: Name) returns (k: nat)
    requires Get(raw, name).Some?
    ensures k < |raw| && Get(raw, name) == Some(raw[k]) && XMLName(raw[k]) == Some(name)
    ensures forall l :: 0 <= l < k ==> XMLName(raw[l]) != Some(name)
  {
    if XMLName(raw[0]) == Some(name) {
      k := 0;
    } else {
      var j := GetIs(raw[1..], name);
      k := j + 1;
      assert forall l :: 1 <= l < k ==> raw[l] == raw[1..][l - 1];
    }
  }

  /** The first value with the name decides, by the status of its group. */
  ghost predicate FirstDecides(ps: seq<PropStat>, name: Name, reply: Reply) {
    if Named(ps, name)
    then exists i, k :: FirstNamed(ps, name, i, k)
                     && reply == if ps[i].code == 200 then Value(ps[i].raw[k]) else Refused(ps[i].code)
    else reply == Refused(404)
  }

  lemma {:induction false} ReportedFirst(ps: seq<PropStat>, name: Name)
    ensures FirstDecides(ps, name, Reported(ps, name))
  {
    hide FirstDecides, Get;
    if ps == [] {
      NoneDecides(name);
    } else if Get(ps[0].raw, name).Some? {
      FrontDecides(ps, name);
    } else {
      ReportedFirst(ps[1..], name);
      RestDecides(ps, name, Reported(ps[1..], name));
    }
  }

  lemma NoneDecides(name: Name)
    ensures FirstDecides([], name, Refused(404))
  {
  }

  lemma FrontDecides(ps: seq<PropStat>, name: Name)
    requires ps != [] && Get(ps[0].raw, name).Some?
    ensures FirstDecides(ps, name, Reported(ps, name))
  {
    hide Get;
    var k := GetIs(ps[0].raw, name);
    assert FirstNamed(ps, name, 0, k);
    FirstIsNamed(ps, name, 0, k);
  }

  lemma FirstIsNamed(ps: seq<PropStat>, name: Name, i: int, k: int)
    requires FirstNamed(ps, name, i, k)
    ensures Named(ps, name)
  {
  }

  lemma RestDecides(ps: seq<PropStat>, name: Name, reply: Reply)
    requires ps != [] && Get(ps[0].raw, name).None? && FirstDecides(ps[1..], name, reply)
    ensures FirstDecides(ps, name, reply)
  {
    hide Get, Named, XMLName;
    RestNamed(ps, name);
    if Named(ps, name) {
      var i, k :| FirstNamed(ps[1..], name, i, k)
               && reply == if ps[1..][i].code == 200 then Value(ps[1..][i].raw[k]) else Refused(ps[1..][i].code);
      RestFirst(ps, name, i, k);
    }
  }

  lemma RestNamed(ps: seq<PropStat>, name: Name)
    requires ps != [] && Get(ps[0].raw, name).None?
    ensures Named(ps, name) <==> Named(ps[1..], name)
  {
    hide Get;
    if Named(ps, name) {
      var i, k :| 0 <= i < |ps| && 0 <= k < |ps[i].raw| && XMLName(ps[i].raw[k]) == Some(name);
      assert ps[i].raw[k] in ps[i].raw;
      assert ps[1..][i - 1] == ps[i];
    }
    if Named(ps[1..], name) {
      var i, k :| 0 <= i < |ps[1..]| && 0 <= k < |ps[1..][i].raw| && XMLName(ps[1..][i].raw[k]) == Some(name);
      assert ps[i + 1] == ps[1..][i];
    }
  }

  lemma RestFirst(ps: seq<PropStat>, name: Name, i: int, k: int)
    requires ps != [] && Get(ps[0].raw, name).None? && FirstNamed(ps[1..], name, i, k)
    ensures FirstNamed(ps, name, i + 1, k) && ps[i + 1] == ps[1..][i]
  {
    hide Get, XMLName;
    forall j, l | 0 <= j < i + 1 && 0 <= l < |ps[j].raw| ensures XMLName(ps[j].raw[l]) != Some(name) {
      assert ps[j].raw[l] in ps[j].raw;
      assert j > 0 ==> ps[j] == ps[1..][j - 1];
    }
  }

  lemma {:induction false} GetFirst(raw: seq<RawXMLValue>, more: seq<RawXMLValue>, name: Name)
    ensures Get(raw + more, name) == if Get(raw, name).Some? then Get(raw, name) else Get(more, name)
  {
    if raw == [] {
      assert raw + more == more;
    } else {
      assert (raw + more)[1..] == raw[1..] + more;
      GetFirst(raw[1..], more, name);
    }
  }

  /** The first call that gives a value of this name, if there is one. */
  function FirstCall(calls: seq<Call>, name: Name): (r: Option<Call>)
    ensures r.Some? ==> r.value in calls && XMLName(r.value.raw) == Some(name)
  {
    if calls == [] then None
    else
      var front := FirstCall(calls[..|calls| - 1], name);
      if front.Some? then front
      else if XMLName(calls[|calls| - 1].raw) == Some(name) then Some(calls[|calls| - 1])
      else None
  }

  /** Every value of this name is reported with this code. */
  ghost predicate OnlyUnder(calls: seq<Call>, name: Name, code: int) {
    forall c :: c in calls && XMLName(c.raw) == Some(name) ==> c.code == code
  }

  lemma {:induction false} GetSelected(calls: seq<Call>, name: Name, code: int, k: int)
    requires OnlyUnder(calls, name, code)
    ensures Get(Select(calls, k), name) ==
            if k == code && FirstCall(calls, name).Some? then Some(FirstCall(calls, name).value.raw) else None
    ensures FirstCall(calls, name).Some? ==> FirstCall(calls, name).value.code == code
    decreases |calls|
  {
    if calls != [] {
      var front, call := calls[..|calls| - 1], calls[|calls| - 1];
      assert calls == front + [call];
      GetSelected(front, name, code, k);
      SelectSnoc(front, call, k);
      GetFirst(Select(front, k), [call.raw], name);
      GetFirst(Select(front, k), [], name);
      assert call in calls;
    }
  }

  lemma {:induction false} ReportedFrom(ps: seq<PropStat>, name: Name, code: int, v: Option<RawXMLValue>)
    requires forall i :: 0 <= i < |ps| ==> Get(ps[i].raw, name) == if ps[i].code == code then v else None
    requires v.Some? ==> exists i :: 0 <= i < |ps| && ps[i].code == code
    ensures Reported(ps, name) ==
            if v.None? then Refused(NOT_FOUND) else if code != OK then Refused(code) else Value(v.value)
  {
    if ps != [] {
      if v.Some? && ps[0].code != code {
        var i :| 0 <= i < |ps| && ps[i].code == code;
        assert ps[1..][i - 1] == ps[i];
        ReportedFrom(ps[1..], name, code, v);
      } else if v.None? {
        ReportedFrom(ps[1..], name, code, v);
      }
    }
  }

  /** A property given under one code only is reported with that code, and with the first value given. */
  lemma ReportedAsEncoded(calls: seq<Call>, name: Name, code: int)
    requires OnlyUnder(calls, name, code)
    ensures Reported(Groups(calls), name) ==
            match FirstCall(calls, name)
              case None => Refused(NOT_FOUND)
              case Some(call) => if call.code != OK then Refused(call.code) else Value(call.raw)
  {
    var ps := Groups(calls);
    var first := FirstCall(calls, name);
    forall i | 0 <= i < |ps|
      ensures Get(ps[i].raw, name) == if ps[i].code == code && first.Some? then Some(first.value.raw) else None
    {
      GetSelected(calls, name, code, ps[i].code);
    }
    GetSelected(calls, name, code, code);
    if first.Some? {
      var k :| 0 <= k < |calls| && calls[k] == first.value;
      assert code in Codes(calls);
      var i :| 0 <= i < |Codes(calls)| && Codes(calls)[i] == code;
      assert ps[i].code == code;
    }
    ReportedFrom(ps, name, code, if first.Some? then Some(first.value.raw) else None);
  }
}
