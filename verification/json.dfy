/** The JavaScript values the generator builds and serialises: JSON data
    plus `undefined`, which can sit in an object's own property (as in
    `{ title: undefined }`) and which `JSON.stringify` leaves out. An
    object is its list of own properties in insertion order, the order
    `JSON.stringify` writes them in. */
module Json {
  import opened Outcomes

  datatype Json =
    | JUndef
    | JBool(b: bool)
    | JNum(n: int)
    | JStr(s: string)
    | JArr(items: seq<Json>)
    | JObj(members: seq<(string, Json)>)

  type Members = seq<(string, Json)>

  /** `Object.keys`, in insertion order. */
  function Keys(m: Members): seq<string> {
    seq(|m|, i requires 0 <= i < |m| => m[i].0)
  }

  ghost predicate UniqueKeys(m: Members) {
    forall i, j :: 0 <= i < j < |m| ==> m[i].0 != m[j].0
  }

  /** `o[k]` on an object's own properties; `None` when there is no such
      property. */
  function Lookup(m: Members, k: string): (r: Option<Json>)
    ensures r.Some? <==> k in Keys(m)
  {
    if m == [] then None
    else
      assert Keys(m) == [m[0].0] + Keys(m[1..]);
      if m[0].0 == k then Some(m[0].1) else Lookup(m[1..], k)
  }

  /** `o[k] = v` */
  function Put(m: Members, k: string, v: Json): (r: Members)
    ensures Lookup(r, k) == Some(v)
  {
    if m == [] then [(k, v)]
    else if m[0].0 == k then [(k, v)] + m[1..]
    else [m[0]] + Put(m[1..], k, v)
  }

  /** An assignment changes no other property. */
  lemma {:induction false} PutOther(m: Members, k: string, v: Json, j: string)
    requires j != k
    ensures Lookup(Put(m, k, v), j) == Lookup(m, j)
    decreases |m|
  {
    if m != [] && m[0].0 != k {
      PutOther(m[1..], k, v, j);
    }
  }

  /** An assignment changes no other property, and an existing property
      keeps its place while a new one goes last. */
  lemma PutSpec(m: Members, k: string, v: Json)
    ensures forall j :: j != k ==> Lookup(Put(m, k, v), j) == Lookup(m, j)
    ensures Keys(Put(m, k, v)) == if k in Keys(m) then Keys(m) else Keys(m) + [k]
  {
    forall j | j != k ensures Lookup(Put(m, k, v), j) == Lookup(m, j) {
      PutOther(m, k, v, j);
    }
    PutKeys(m, k, v);
  }

  lemma PutKeys(m: Members, k: string, v: Json)
    ensures Keys(Put(m, k, v)) == if k in Keys(m) then Keys(m) else Keys(m) + [k]
  {
    var r := Put(m, k, v);
    if k in Keys(m) {
      PutKeepsPlaces(m, k, v);
      PutKeepsLength(m, k, v);
      assert forall i :: 0 <= i < |r| ==> Keys(r)[i] == Keys(m)[i];
    } else {
      PutAppends(m, k, v);
      assert Keys(r) == Keys(m) + [k];
    }
  }

  lemma {:induction false} PutKeepsLength(m: Members, k: string, v: Json)
    requires k in Keys(m)
    ensures |Put(m, k, v)| == |m|
    decreases |m|
  {
    assert Keys(m) == [m[0].0] + Keys(m[1..]);
    if m[0].0 != k {
      PutKeepsLength(m[1..], k, v);
    }
  }

  /** `delete o[k]` */
  function Remove(m: Members, k: string): (r: Members)
    ensures Lookup(r, k) == None
    ensures k !in Keys(m) ==> r == m
  {
    if m == [] then []
    else
      assert Keys(m) == [m[0].0] + Keys(m[1..]);
      if m[0].0 == k then Remove(m[1..], k)
      else [m[0]] + Remove(m[1..], k)
  }

  /** A deletion changes no other property and drops no other name. */
  lemma {:induction false} RemoveSpec(m: Members, k: string)
    ensures forall j :: j != k ==> Lookup(Remove(m, k), j) == Lookup(m, j)
    ensures forall j :: j in Keys(Remove(m, k)) <==> j in Keys(m) && j != k
    decreases |m|
  {
    if m != [] {
      assert Keys(m) == [m[0].0] + Keys(m[1..]);
      RemoveSpec(m[1..], k);
      if m[0].0 != k {
        var r := Remove(m, k);
        assert Keys(r) == [m[0].0] + Keys(r[1..]);
      }
    }
  }

  /** Assigning each entry of `kvs` in turn, as
      `Object.keys(src).forEach(k => o[k] = src[k])` does. */
  function PutAll(m: Members, kvs: Members): Members {
    if kvs == [] then m
    else
      var last := kvs[|kvs| - 1];
      Put(PutAll(m, kvs[..|kvs| - 1]), last.0, last.1)
  }

  lemma LookupSnoc(kvs: Members, x: (string, Json), j: string)
    ensures Lookup(kvs + [x], j) ==
      if j in Keys(kvs) then Lookup(kvs, j) else if j == x.0 then Some(x.1) else None
  {
    if kvs != [] {
      assert (kvs + [x])[1..] == kvs[1..] + [x];
      assert Keys(kvs) == [kvs[0].0] + Keys(kvs[1..]);
      LookupSnoc(kvs[1..], x, j);
    }
  }

  /** After merging properties with distinct names into an object, each
      merged name holds the merged value and every other name keeps what
      it held. */
  lemma {:induction false} PutAllLookup(m: Members, kvs: Members, j: string)
    requires UniqueKeys(kvs)
    ensures Lookup(PutAll(m, kvs), j) == if j in Keys(kvs) then Lookup(kvs, j) else Lookup(m, j)
    decreases |kvs|
  {
    if kvs != [] {
      var init, x := kvs[..|kvs| - 1], kvs[|kvs| - 1];
      assert kvs == init + [x];
      assert Keys(kvs) == Keys(init) + [x.0];
      PutAllLookup(m, init, j);
      assert x.0 !in Keys(init);
      LookupSnoc(init, x, j);
      PutSpec(PutAll(m, init), x.0, x.1);
    }
  }

  /** Lookups in a three-property object literal. */
  lemma LookupTriple(a: string, b: string, c: string, va: Json, vb: Json, vc: Json, k: string)
    requires a != b && a != c && b != c
    ensures Lookup([(a, va), (b, vb), (c, vc)], k)
            == if k == a then Some(va) else if k == b then Some(vb) else if k == c then Some(vc) else None
  {
    var m := [(a, va), (b, vb), (c, vc)];
    assert m[1..] == [(b, vb), (c, vc)];
    assert m[1..][1..] == [(c, vc)];
    assert m[1..][1..][1..] == [];
    assert Lookup(m[1..][1..], k) == if k == c then Some(vc) else None;
    assert Lookup(m[1..], k) == if k == b then Some(vb) else Lookup(m[1..][1..], k);
  }

  /** Assigning a name the object lacks appends it. */
  lemma {:induction false} PutAppends(m: Members, k: string, v: Json)
    requires Lookup(m, k) == None
    ensures Put(m, k, v) == m + [(k, v)]
    decreases |m|
  {
    if m != [] {
      PutAppends(m[1..], k, v);
      assert m == [m[0]] + m[1..];
    }
  }

  /** An assignment never moves the properties already there. */
  lemma {:induction false} PutKeepsPlaces(m: Members, k: string, v: Json)
    ensures |Put(m, k, v)| >= |m|
    ensures forall i :: 0 <= i < |m| ==> Put(m, k, v)[i].0 == m[i].0
    decreases |m|
  {
    if m != [] && m[0].0 != k {
      PutKeepsPlaces(m[1..], k, v);
    }
  }

  /** Merging properties never moves the object's existing names. */
  lemma {:induction false} PutAllKeepsOrder(m: Members, kvs: Members)
    ensures |PutAll(m, kvs)| >= |m|
    ensures forall i :: 0 <= i < |m| ==> PutAll(m, kvs)[i].0 == m[i].0
    decreases |kvs|
  {
    if kvs != [] {
      var init, x := kvs[..|kvs| - 1], kvs[|kvs| - 1];
      PutAllKeepsOrder(m, init);
      PutKeepsPlaces(PutAll(m, init), x.0, x.1);
    }
  }

  /** The JavaScript `x[k]` read: `undefined` unless `x` is an object with
      that own property. */
  function Member(x: Json, k: string): Json {
    match x
    case JObj(m) => Lookup(m, k).GetOr(JUndef)
    case _ => JUndef
  }

  /** A `{ $ref: target }` object. */
  function Ref(target: string): Json {
    JObj([("$ref", JStr(target))])
  }

  /** An array of strings. */
  function Strs(ss: seq<string>): (r: Json)
    ensures r.JArr? && |r.items| == |ss|
    ensures forall i :: 0 <= i < |ss| ==> r.items[i] == JStr(ss[i])
  {
    JArr(seq(|ss|, i requires 0 <= i < |ss| => JStr(ss[i])))
  }

  /** A possibly `undefined` string as a JavaScript value. */
  function OptStr(s: Option<string>): Json {
    match s
    case Some(v) => JStr(v)
    case None => JUndef
  }
}
