/**
 Volume ids of the CSI driver: the fields of a volume joined with '#', and back.
 */
module CsiVolume {
  import opened Data

  datatype Endpoint = Endpoint(scheme: string, host: string, path: string)

  datatype Volume = Volume(id: string, uuid: string, scheme: string, host: string, base: string, size: int)

  const BACKEND := "backend"

  /** strings.Split(s, "#"). */
  function Split(s: string): (r: seq<string>)
    ensures |r| >= 1
  {
    if s == "" then [""]
    else
      var rest := Split(s[1..]);
      if s[0] == '#' then [""] + rest else [[s[0]] + rest[0]] + rest[1..]
  }

  /** strings.Join(fields, "#"). */
  function Join(fields: seq<string>): string {
    if |fields| == 0 then "" else if |fields| == 1 then fields[0] else fields[0] + "#" + Join(fields[1..])
  }

  /** strings.Trim(s, "/"). */
  function TrimSlashes(s: string): (r: string)
    ensures |r| <= |s|
    ensures r != "" ==> r[0] != '/' && r[|r| - 1] != '/'
  {
    if s == "" then ""
    else if s[0] == '/' then TrimSlashes(s[1..])
    else if s[|s| - 1] == '/' then TrimSlashes(s[..|s| - 1])
    else s
  }

  /** r is s without the slashes at its two ends. */
  ghost predicate Trimmed(s: string, r: string) {
    exists i, j :: 0 <= i <= j <= |s| && s[i..j] == r && SlashesBut(s, i, j)
      && (r != "" ==> r[0] != '/' && r[|r| - 1] != '/')
  }

  predicate SlashesBut(s: string, i: nat, j: nat) {
    forall k :: 0 <= k < |s| && (k < i || j <= k) ==> s[k] == '/'
  }

  lemma {:induction false} TrimEnds(s: string) returns (i: nat, j: nat)
    ensures i <= j <= |s| && s[i..j] == TrimSlashes(s) && SlashesBut(s, i, j)
    decreases |s|
  {
    hide SlashesBut;
    if s == "" {
      i, j := 0, 0;
      NoSlashes(s);
    } else if s[0] == '/' {
      var a, b := TrimEnds(s[1..]);
      SlashBefore(s, a, b);
      i, j := a + 1, b + 1;
    } else if s[|s| - 1] == '/' {
      i, j := TrimEnds(s[..|s| - 1]);
      SlashAfter(s, i, j);
    } else {
      i, j := 0, |s|;
      NoSlashes(s);
    }
  }

  lemma NoSlashes(s: string)
    ensures s[0..|s|] == s && SlashesBut(s, 0, |s|)
  {
  }

  lemma SlashBefore(s: string, i: nat, j: nat)
    requires s != "" && s[0] == '/' && i <= j < |s| && SlashesBut(s[1..], i, j)
    ensures s[i + 1..j + 1] == s[1..][i..j] && SlashesBut(s, i + 1, j + 1)
  {
    assert forall k :: 1 <= k < |s| ==> s[k] == s[1..][k - 1];
  }

  lemma SlashAfter(s: string, i: nat, j: nat)
    requires s != "" && s[|s| - 1] == '/' && i <= j < |s| && SlashesBut(s[..|s| - 1], i, j)
    ensures s[i..j] == s[..|s| - 1][i..j] && SlashesBut(s, i, j)
  {
    assert forall k :: 0 <= k < |s| - 1 ==> s[k] == s[..|s| - 1][k];
  }

  lemma TrimsSlashes(s: string)
    ensures Trimmed(s, TrimSlashes(s))
  {
    hide TrimSlashes;
    var i, j := TrimEnds(s);
  }

  function IdOf(scheme: string, host: string, base: string, uuid: string): string {
    Join([scheme, host, base, uuid])
  }

  predicate Plain(field: string) {
    '#' !in field
  }

  /** What the secrets say about the volume: nothing unless they have a backend. */
  function NewVolume(name: string, size: int, secrets: map<string, string>,
                     parse: string -> Option<Endpoint>): Option<Volume> {
    if BACKEND !in secrets then
      Some(Volume(IdOf("", "", "", name), name, "", "", "", size))
    else match parse(secrets[BACKEND])
      case None => None
      case Some(e) =>
        var base := TrimSlashes(e.path);
        Some(Volume(IdOf(e.scheme, e.host, base, name), name, e.scheme, e.host, base, size))
  }

  /** The secrets are visited in any order. */
  method MakeVolume(name: string, size: int, secrets: map<string, string>, parse: string -> Option<Endpoint>)
    returns (vol: Option<Volume>)
    ensures vol == NewVolume(name, size, secrets, parse)
    ensures "backend" !in secrets ==> vol == Some(Volume("###" + name, name, "", "", "", size))
    ensures "backend" in secrets ==> (vol.None? <==> parse(secrets["backend"]).None?)
    ensures "backend" in secrets && vol.Some? ==> var e, v := parse(secrets["backend"]).value, vol.value;
      && v.uuid == name && v.size == size && v.scheme == e.scheme && v.host == e.host && Trimmed(e.path, v.base)
      && v.id == e.scheme + "#" + (e.host + "#" + (v.base + "#" + name))
  {
    NewVolumeIs(name, size, secrets, parse);
    var scheme, host, base := "", "", "";
    var todo := secrets.Keys;
    while todo != {}
      invariant todo <= secrets.Keys
      invariant BACKEND in todo || BACKEND !in secrets ==> scheme == host == base == ""
      invariant BACKEND in secrets && BACKEND !in todo ==>
                  && parse(secrets[BACKEND]).Some?
                  && var e := parse(secrets[BACKEND]).value;
                     scheme == e.scheme && host == e.host && base == TrimSlashes(e.path)
      decreases |todo|
    {
      var k :| k in todo;
      todo := todo - {k};
      if k == BACKEND {
        var e := parse(secrets[k]);
        if e.None? {
          return None;
        }
        scheme, host, base := e.value.scheme, e.value.host, TrimSlashes(e.value.path);
      }
    }
    return Some(Volume(IdOf(scheme, host, base, name), name, scheme, host, base, size));
  }

  function VolumeFromID(id: string): Option<Volume> {
    var segments := Split(id);
    if |segments| != 4 then None
    else Some(Volume(id, segments[3], segments[0], segments[1], segments[2], 0))
  }

  // ---------------------------------------------------------------- splitting and joining

  function Hashes(s: string): nat {
    if s == "" then 0 else (if s[0] == '#' then 1 else 0) + Hashes(s[1..])
  }

  lemma {:induction false} HashesConcat(s: string, t: string)
    ensures Hashes(s + t) == Hashes(s) + Hashes(t)
  {
    if s == "" {
      assert s + t == t;
    } else {
      assert (s + t)[1..] == s[1..] + t;
      HashesConcat(s[1..], t);
    }
  }

  lemma {:induction false} PlainHashes(s: string)
    ensures Plain(s) <==> Hashes(s) == 0
  {
    if s != "" {
      PlainHashes(s[1..]);
      assert s == [s[0]] + s[1..];
    }
  }

  lemma {:induction false} SplitCount(s: string)
    ensures |Split(s)| == Hashes(s) + 1
  {
    if s != "" {
      SplitCount(s[1..]);
    }
  }

  lemma {:induction false} SplitPlain(a: string, rest: string)
    requires Plain(a)
    ensures Split(a) == [a]
    ensures Split(a + "#" + rest) == [a] + Split(rest)
  {
    if a == "" {
      assert (a + "#" + rest)[1..] == rest;
    } else {
      assert a == [a[0]] + a[1..];
      SplitPlain(a[1..], rest);
      assert (a + "#" + rest)[1..] == a[1..] + "#" + rest;
    }
  }

  lemma {:induction false} JoinSplit(s: string)
    ensures Join(Split(s)) == s
  {
    if s != "" {
      JoinSplit(s[1..]);
      var rest := Split(s[1..]);
      if s[0] == '#' {
        assert Split(s)[1..] == rest;
      } else {
        assert Split(s)[1..] == rest[1..];
      }
    }
  }

  // ---------------------------------------------------------------- the codec

  /** The fields of a volume come back from its id exactly when none has a '#' in it; an id with a '#' in
      a field is refused, and never read as other fields. */
  lemma IdRoundTrip(scheme: string, host: string, base: string, uuid: string)
    ensures var id := IdOf(scheme, host, base, uuid);
      && (VolumeFromID(id).Some? <==> Plain(scheme) && Plain(host) && Plain(base) && Plain(uuid))
      && (VolumeFromID(id).Some? ==> VolumeFromID(id).value == Volume(id, uuid, scheme, host, base, 0))
  {
    var id := IdOf(scheme, host, base, uuid);
    IdJoined(scheme, host, base, uuid);
    var tail2 := base + "#" + uuid;
    var tail1 := host + "#" + tail2;
    HashesConcat(scheme + "#", tail1);
    HashesConcat(scheme, "#");
    HashesConcat(host + "#", tail2);
    HashesConcat(host, "#");
    HashesConcat(base + "#", uuid);
    HashesConcat(base, "#");
    assert Hashes("#") == 1;
    SplitCount(id);
    PlainHashes(scheme);
    PlainHashes(host);
    PlainHashes(base);
    PlainHashes(uuid);
    if VolumeFromID(id).Some? {
      SplitPlain(scheme, tail1);
      SplitPlain(host, tail2);
      SplitPlain(base, uuid);
      SplitPlain(uuid, "");
      assert Split(id) == [scheme, host, base, uuid];
    }
  }

  lemma IdJoined(scheme: string, host: string, base: string, uuid: string)
    ensures IdOf(scheme, host, base, uuid) == scheme + "#" + (host + "#" + (base + "#" + uuid))
  {
    var fields := [scheme, host, base, uuid];
    assert fields[1..] == [host, base, uuid] && [host, base, uuid][1..] == [base, uuid] && [base, uuid][1..] == [uuid];
    assert Join([base, uuid]) == base + "#" + Join([uuid]);
    assert Join([host, base, uuid]) == host + "#" + Join([base, uuid]);
  }

  lemma NewVolumeIs(name: string, size: int, secrets: map<string, string>, parse: string -> Option<Endpoint>)
    ensures var vol := NewVolume(name, size, secrets, parse);
      && ("backend" !in secrets ==> vol == Some(Volume("###" + name, name, "", "", "", size)))
      && ("backend" in secrets && vol.Some? ==> var e, v := parse(secrets["backend"]).value, vol.value;
            && Trimmed(e.path, v.base) && v.id == e.scheme + "#" + (e.host + "#" + (v.base + "#" + name)))
  {
    hide Join, TrimSlashes, IdOf, Trimmed;
    if BACKEND !in secrets {
      IdJoined("", "", "", name);
      assert "" + "#" + ("" + "#" + ("" + "#" + name)) == "###" + name;
    } else if parse(secrets[BACKEND]).Some? {
      var e := parse(secrets[BACKEND]).value;
      TrimsSlashes(e.path);
      IdJoined(e.scheme, e.host, TrimSlashes(e.path), name);
    }
  }

  /** Every id that is read is the id of the fields it is read as. */
  lemma IdOfRead(id: string)
    requires VolumeFromID(id).Some?
    ensures var v := VolumeFromID(id).value; IdOf(v.scheme, v.host, v.base, v.uuid) == id
    ensures var v := VolumeFromID(id).value; Plain(v.scheme) && Plain(v.host) && Plain(v.base) && Plain(v.uuid)
  {
    JoinSplit(id);
    var v := VolumeFromID(id).value;
    assert Split(id) == [v.scheme, v.host, v.base, v.uuid];
    IdRoundTrip(v.scheme, v.host, v.base, v.uuid);
  }

  /** Two new volumes whose ids can be read have the same id only if they have the same fields. */
  lemma IdsDiffer(v: Volume, w: Volume)
    requires v.id == IdOf(v.scheme, v.host, v.base, v.uuid) && w.id == IdOf(w.scheme, w.host, w.base, w.uuid)
    requires VolumeFromID(v.id).Some? && v.id == w.id
    ensures v.(size := 0) == w.(size := 0)
  {
    IdRoundTrip(v.scheme, v.host, v.base, v.uuid);
    IdRoundTrip(w.scheme, w.host, w.base, w.uuid);
  }

  /** A new volume is read back from its id, but for its size, unless some field has a '#' in it. */
  lemma NewVolumeReadBack(name: string, size: int, secrets: map<string, string>, parse: string -> Option<Endpoint>)
    requires NewVolume(name, size, secrets, parse).Some?
    ensures var v := NewVolume(name, size, secrets, parse).value;
      VolumeFromID(v.id) ==
        if Plain(v.scheme) && Plain(v.host) && Plain(v.base) && Plain(name) then Some(v.(size := 0)) else None
  {
    var v := NewVolume(name, size, secrets, parse).value;
    IdRoundTrip(v.scheme, v.host, v.base, v.uuid);
  }
}
