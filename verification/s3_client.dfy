/**
 The bucket as the S3 file system uses it: get, put, copy, remove and list by prefix with the
 delimiter "/". Any call may fail; a write that fails may or may not have been carried out.
 */
module S3Client {
  import opened Data
  import opened GoPath
  import opened S3Keys

  datatype Error = NotExist | Exist | Permission | Invalid | Failed

  datatype Result<+T> = Ok(value: T) | Err(error: Error)

  /** One item of a listing; a listing that fails ends in Broken. */
  datatype Listed = Entry(key: string, size: nat) | Broken

  /** What the listing by prefix shows for the key k: k itself, or the common prefix that hides it. */
  function EntryOf(B: Objects, prefix: string, k: string): Listed
    requires k in B && prefix <= k
  {
    var rest := k[|prefix|..];
    var seg := Split(rest)[0];
    if seg == rest then Entry(k, |B[k]|) else Entry(prefix + seg + "/", 0)
  }

  function Listing(B: Objects, prefix: string): set<Listed> {
    set k | k in B && prefix <= k :: EntryOf(B, prefix, k)
  }

  ghost predicate Distinct<T>(s: seq<T>) {
    forall i, j :: 0 <= i < j < |s| ==> s[i] != s[j]
  }

  ghost predicate Lists<T(!new)>(s: seq<T>, all: set<T>) {
    Distinct(s) && forall e :: e in s <==> e in all
  }

  /** The order in which a listing gives its items: S3 and its clients have one, but promise none. */
  ghost predicate IsOrder(order: set<Listed> -> seq<Listed>) {
    forall all :: Lists(order(all), all)
  }

  type Order = order: set<Listed> -> seq<Listed> | IsOrder(order) ghost witness SomeOrder()

  ghost function SomeOrder(): (order: set<Listed> -> seq<Listed>)
    ensures IsOrder(order)
  {
    all => Enumerated(all)
  }

  ghost function Enumerated<T(!new)>(all: set<T>): (s: seq<T>)
    ensures Lists(s, all)
  {
    if all == {} then []
    else
      var e :| e in all;
      [e] + Enumerated(all - {e})
  }

  lemma OrderLists(order: Order, all: set<Listed>)
    ensures Lists(order(all), all)
  {
  }

  /** Some key starts with K. */
  ghost predicate Seen(B: Objects, K: string) {
    exists k :: k in B && K <= k
  }

  lemma ListingSeen(B: Objects, prefix: string)
    ensures Listing(B, prefix) != {} <==> Seen(B, prefix)
  {
    if Seen(B, prefix) {
      var k :| k in B && prefix <= k;
      assert EntryOf(B, prefix, k) in Listing(B, prefix);
    }
  }

  class Client {
    var objects: Objects
    /** Some call has failed. */
    var faulted: bool
    /** Some listing has failed. */
    var blind: bool
    const order: Order

    constructor (order: Order)
      ensures objects == map[] && !faulted && !blind && this.order == order
    {
      objects := map[];
      faulted, blind := false, false;
      this.order := order;
    }

    method StatObject(key: string) returns (r: Result<nat>)
      modifies this`faulted
      ensures old(faulted) ==> faulted
      ensures r == Err(Failed) ==> faulted
      ensures r != Err(Failed) ==> r == if key in objects then Ok(|objects[key]|) else Err(NotExist)
    {
      if * {
        faulted := true;
        return Err(Failed);
      }
      r := if key in objects then Ok(|objects[key]|) else Err(NotExist);
    }

    method PutObject(key: string, data: Bytes) returns (r: Result<()>)
      modifies this`objects, this`faulted
      ensures old(faulted) ==> faulted
      ensures r.Ok? ==> objects == old(objects)[key := data]
      ensures r.Err? ==> faulted && r.error == Failed
      ensures objects == old(objects) || objects == old(objects)[key := data]
    {
      if * {
        if * {
          objects := objects[key := data];
        }
        faulted := true;
        return Err(Failed);
      }
      objects := objects[key := data];
      r := Ok(());
    }

    /** The object as a reader of it; nothing is read yet. */
    method GetObject(key: string) returns (r: Result<()>)
      modifies this`faulted
      ensures old(faulted) ==> faulted
      ensures r.Err? ==> faulted && r.error == Failed
    {
      if * {
        faulted := true;
        return Err(Failed);
      }
      r := Ok(());
    }

    /** An object cannot be copied onto itself, nor to the empty key. */
    method CopyObject(dest: string, src: string) returns (r: Result<()>)
      modifies this`objects, this`faulted
      ensures old(faulted) ==> faulted
      ensures r == Err(Failed) ==> faulted
      ensures dest == "" || dest == src ==> r.Err? && objects == old(objects)
      ensures r.Ok? ==> src in old(objects) && objects == old(objects)[dest := old(objects)[src]]
      ensures r.Err? && r.error != Failed ==>
        objects == old(objects) && r.error == if dest == "" || dest == src then Invalid else NotExist
      ensures r == Err(NotExist) ==> src !in old(objects)
      ensures objects == old(objects) || (src in old(objects) && objects == old(objects)[dest := old(objects)[src]])
    {
      if * {
        if src in objects && dest != "" && dest != src {
          if * {
            objects := objects[dest := objects[src]];
          }
        }
        faulted := true;
        return Err(Failed);
      }
      if dest == "" || dest == src {
        return Err(Invalid);
      }
      if src !in objects {
        return Err(NotExist);
      }
      objects := objects[dest := objects[src]];
      r := Ok(());
    }

    /** With ForceDelete: removing an absent key is no error. */
    method RemoveObject(key: string) returns (r: Result<()>)
      modifies this`objects, this`faulted
      ensures old(faulted) ==> faulted
      ensures r.Ok? ==> objects == old(objects) - {key}
      ensures r.Err? ==> faulted && r.error == Failed
      ensures objects == old(objects) || objects == old(objects) - {key}
    {
      if * {
        if * {
          objects := objects - {key};
        }
        faulted := true;
        return Err(Failed);
      }
      objects := objects - {key};
      r := Ok(());
    }

    /** The items in their order, unless the listing breaks off. */
    method ListObjects(prefix: string) returns (r: seq<Listed>)
      modifies this`faulted, this`blind
      ensures old(faulted) ==> faulted
      ensures old(blind) ==> blind
      ensures var all := order(Listing(objects, prefix));
        || r == all
        || (faulted && blind && r != [] && r[..|r| - 1] <= all && r[|r| - 1] == Broken)
    {
      var all := order(Listing(objects, prefix));
      var n: nat :| n <= |all|;
      if n < |all| {
        faulted, blind := true, true;
        return all[..n] + [Broken];
      }
      if * {
        faulted, blind := true, true;
        return all + [Broken];
      }
      r := all;
    }
  }
}
