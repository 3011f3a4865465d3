/** Optional values, Python exceptions as values, and results that may carry one. */
module Results {

  datatype Option<T> = None | Some(value: T)

  /** The exceptions of the core that escape to a caller, by Python class. */
  datatype PyError =
    | ValueError(message: string)
    | AttributeError(message: string)
    | TypeError(message: string)
    | KeyError(key: string)

  datatype Result<T> = Ok(value: T) | Err(error: PyError)

  /** `acc.extend(rest)` when `rest` was computed, or the exception that stopped it. */
  function Prepend<T>(acc: seq<T>, rest: Result<seq<T>>): (r: Result<seq<T>>)
    ensures rest.Ok? ==> r == Ok(acc + rest.value)
    ensures rest.Err? ==> r == rest
  {
    match rest
    case Ok(xs) => Ok(acc + xs)
    case Err(e) => Err(e)
  }

  /** Prepending nothing changes nothing. */
  lemma {:induction false} PrependNothing<T>(rest: Result<seq<T>>)
    ensures Prepend([], rest) == rest
  {
    if rest.Ok? {
      assert [] + rest.value == rest.value;
    }
  }

  /** Prepending to an empty result gives the prefix. */
  lemma {:induction false} PrependEmpty<T>(acc: seq<T>)
    ensures Prepend(acc, Ok([])) == Ok(acc)
  {
    assert acc + [] == acc;
  }

  /** Prepending twice is prepending the concatenation once. */
  lemma {:induction false} PrependTwice<T>(a: seq<T>, b: seq<T>, rest: Result<seq<T>>)
    ensures Prepend(a, Prepend(b, rest)) == Prepend(a + b, rest)
  {
    if rest.Ok? {
      assert a + (b + rest.value) == (a + b) + rest.value;
    }
  }
}

/**
 * The values the scrapers put into their result dictionaries and the JSON they decode:
 * a record is a Python `dict`, kept as its entries in insertion order.
 */
module Records {
  import opened Results

  datatype Value =
    | Null
    | Bool(b: bool)
    | Int(i: int)
    | Real(r: real)
    | Str(s: string)
    | Arr(items: seq<Value>)
    | Obj(entries: seq<Entry>)

  datatype Entry = Entry(key: string, val: Value)

  type Record = seq<Entry>

  /** `list(d.keys())`. */
  function Keys(r: Record): (ks: seq<string>)
    ensures |ks| == |r| && forall j :: 0 <= j < |r| ==> ks[j] == r[j].key
  {
    seq(|r|, j requires 0 <= j < |r| => r[j].key)
  }

  /** The keys and values of a four-entry record, listed. */
  lemma {:induction false} FourEntries(r: Record)
    requires |r| == 4
    ensures Keys(r) == [r[0].key, r[1].key, r[2].key, r[3].key]
    ensures Values(r) == [r[0].val, r[1].val, r[2].val, r[3].val]
  {
    var ks := Keys(r);
    var vs := Values(r);
    assert ks[0] == r[0].key && ks[1] == r[1].key && ks[2] == r[2].key && ks[3] == r[3].key;
    assert vs[0] == r[0].val && vs[1] == r[1].val && vs[2] == r[2].val && vs[3] == r[3].val;
  }

  /** The keys of a five-entry record, listed. */
  lemma {:induction false} FiveKeys(r: Record)
    requires |r| == 5
    ensures Keys(r) == [r[0].key, r[1].key, r[2].key, r[3].key, r[4].key]
  {
    var ks := Keys(r);
    assert ks[0] == r[0].key && ks[1] == r[1].key && ks[2] == r[2].key;
    assert ks[3] == r[3].key && ks[4] == r[4].key;
  }

  /** The keys of a six-entry record, listed. */
  lemma {:induction false} SixKeys(r: Record)
    requires |r| == 6
    ensures Keys(r) == [r[0].key, r[1].key, r[2].key, r[3].key, r[4].key, r[5].key]
  {
    var ks := Keys(r);
    assert ks[0] == r[0].key && ks[1] == r[1].key && ks[2] == r[2].key;
    assert ks[3] == r[3].key && ks[4] == r[4].key && ks[5] == r[5].key;
  }

  /** Appending an entry appends its key. */
  lemma {:induction false} KeysSnoc(r: Record, e: Entry)
    ensures Keys(r + [e]) == Keys(r) + [e.key]
  {
    assert forall j :: 0 <= j < |r| ==> (r + [e])[j] == r[j];
  }

  /** `list(d.values())`. */
  function Values(r: Record): (vs: seq<Value>)
    ensures |vs| == |r| && forall j :: 0 <= j < |r| ==> vs[j] == r[j].val
  {
    seq(|r|, j requires 0 <= j < |r| => r[j].val)
  }

  /** A Python dict never holds a key twice. */
  ghost predicate DistinctKeys(r: Record)
  {
    forall i, j :: 0 <= i < j < |r| ==> r[i].key != r[j].key
  }

  /** `d.get(k)`: the value stored under `k`, if any. */
  function Lookup(r: Record, k: string): (v: Option<Value>)
    ensures v.None? <==> k !in Keys(r)
  {
    if r == [] then None
    else if r[0].key == k then Some(r[0].val)
    else Lookup(r[1..], k)
  }

  /** In a dict, the key at position `j` finds the value at position `j`. */
  lemma {:induction false} LookupAt(r: Record, j: nat)
    requires DistinctKeys(r) && j < |r|
    ensures Lookup(r, r[j].key) == Some(r[j].val)
  {
    if j > 0 {
      assert r[0].key != r[j].key;
      assert r[1..][j - 1] == r[j];
      LookupAt(r[1..], j - 1);
    }
  }

  /** Dropping the first entry of a dict leaves a dict. */
  lemma {:induction false} DistinctTail(r: Record)
    requires DistinctKeys(r) && r != []
    ensures DistinctKeys(r[1..])
  {
    var t := r[1..];
    forall a, b | 0 <= a < b < |t| ensures t[a].key != t[b].key {
      assert t[a] == r[a + 1] && t[b] == r[b + 1];
    }
  }

  /** Two dicts with the same keys and the same value at every position are the same dict. */
  lemma {:induction false} SameEntries(a: Record, b: Record)
    requires Keys(a) == Keys(b)
    requires forall j :: 0 <= j < |a| && j < |b| ==> a[j].val == b[j].val
    ensures a == b
  {
    assert |a| == |Keys(a)| == |Keys(b)| == |b|;
    forall j | 0 <= j < |a| ensures a[j] == b[j] {
      assert a[j].key == Keys(a)[j] == Keys(b)[j] == b[j].key;
    }
  }

  /** `d.get(k, default)`. */
  function GetOr(r: Record, k: string, default: Value): Value
  {
    match Lookup(r, k)
    case Some(v) => v
    case None => default
  }

  /**
   * `d[k] = v` on a copy: an existing key keeps its position and takes the new value,
   * a new key goes to the end.
   */
  function Put(r: Record, k: string, v: Value): (r': Record)
    ensures k in Keys(r) ==> Keys(r') == Keys(r)
    ensures k !in Keys(r) ==> r' == r + [Entry(k, v)]
    ensures Lookup(r', k) == Some(v)
    ensures forall j :: 0 <= j < |r| && r[j].key != k ==> j < |r'| && r'[j] == r[j]
  {
    if r == [] then [Entry(k, v)]
    else if r[0].key == k then PutHead(r, v); [Entry(k, v)] + r[1..]
    else
      var rest := Put(r[1..], k, v);
      assert r == [r[0]] + r[1..];
      PutConsKeys(r[0], r[1..], k, v, rest);
      PutConsKeep(r[0], r[1..], k, v, rest);
      [r[0]] + rest
  }

  /** `Put` on a record whose first key is `k`: replacing the head entry. */
  lemma {:induction false} PutHead(r: Record, v: Value)
    requires r != []
    ensures Keys([Entry(r[0].key, v)] + r[1..]) == Keys(r)
    ensures Lookup([Entry(r[0].key, v)] + r[1..], r[0].key) == Some(v)
    ensures forall j :: 0 <= j < |r| && r[j].key != r[0].key ==> ([Entry(r[0].key, v)] + r[1..])[j] == r[j]
  {
    var p := [Entry(r[0].key, v)] + r[1..];
    assert forall j :: 0 < j < |r| ==> p[j] == r[j];
  }

  /** The keys of a record with `h` in front. */
  lemma {:induction false} KeysCons(h: Entry, t: Record)
    ensures Keys([h] + t) == [h.key] + Keys(t)
  {
    var a := Keys([h] + t);
    var b := [h.key] + Keys(t);
    forall j | 0 <= j < |a| ensures a[j] == b[j] {
      if j > 0 {
        assert ([h] + t)[j] == t[j - 1];
      }
    }
  }

  /** `Put` past a head entry under another key: the keys as `Put` promises them. */
  lemma {:induction false} PutConsKeys(h: Entry, t: Record, k: string, v: Value, rest: Record)
    requires h.key != k
    requires k in Keys(t) ==> Keys(rest) == Keys(t)
    requires k !in Keys(t) ==> rest == t + [Entry(k, v)]
    ensures k in Keys([h] + t) ==> Keys([h] + rest) == Keys([h] + t)
    ensures k !in Keys([h] + t) ==> [h] + rest == [h] + t + [Entry(k, v)]
  {
    KeysCons(h, t);
    KeysCons(h, rest);
  }

  /** `Put` past a head entry under another key: what `k` finds, and the entries kept. */
  lemma {:induction false} PutConsKeep(h: Entry, t: Record, k: string, v: Value, rest: Record)
    requires h.key != k
    requires Lookup(rest, k) == Some(v)
    requires forall j :: 0 <= j < |t| && t[j].key != k ==> j < |rest| && rest[j] == t[j]
    ensures Lookup([h] + rest, k) == Some(v)
    ensures forall j :: 0 <= j < |t| + 1 && ([h] + t)[j].key != k ==> j < |rest| + 1 && ([h] + rest)[j] == ([h] + t)[j]
  {
    assert ([h] + rest)[1..] == rest;
    forall j | 0 <= j < |t| + 1 && ([h] + t)[j].key != k ensures j < |rest| + 1 && ([h] + rest)[j] == ([h] + t)[j] {
      if j > 0 {
        assert ([h] + t)[j] == t[j - 1];
      }
    }
  }

  /** In a dict, assigning to the key at position `j` replaces the value there and nothing else. */
  lemma {:induction false} PutAt(r: Record, j: nat, v: Value)
    requires DistinctKeys(r) && j < |r|
    ensures Put(r, r[j].key, v) == r[j := Entry(r[j].key, v)]
  {
    var k := r[j].key;
    var p := Put(r, k, v);
    assert Keys(r)[j] == k;
    assert Keys(p) == Keys(r);
    assert DistinctKeys(p) by {
      forall a, b | 0 <= a < b < |p| ensures p[a].key != p[b].key {
        assert p[a].key == Keys(p)[a] == r[a].key;
        assert p[b].key == Keys(p)[b] == r[b].key;
      }
    }
    assert p[j].key == Keys(p)[j] == k;
    LookupAt(p, j);
    forall i | 0 <= i < |p| ensures p[i] == r[j := Entry(k, v)][i] {
      if i != j {
        assert r[i].key != k;
      }
    }
  }

  /** Assigning to one key leaves what every other key finds unchanged. */
  lemma {:induction false} PutOther(r: Record, k: string, v: Value, other: string)
    requires other != k
    ensures Lookup(Put(r, k, v), other) == Lookup(r, other)
  {
    if r != [] && r[0].key != k {
      PutOther(r[1..], k, v, other);
      assert ([r[0]] + Put(r[1..], k, v))[1..] == Put(r[1..], k, v);
    }
  }

  /** `d.update(u)`: each entry of `u`, in order, assigned into `d`. */
  function Update(d: Record, u: Record): Record
  {
    UpdateUpTo(d, u, |u|)
  }

  /** The first `n` entries of `u`, in order, assigned into `d`. */
  function UpdateUpTo(d: Record, u: Record, n: nat): Record
    requires n <= |u|
    decreases n
  {
    if n == 0 then d else Put(UpdateUpTo(d, u, n - 1), u[n - 1].key, u[n - 1].val)
  }

  /** After `d.update(u)` every key of `u` finds its value in `u`, and every other key its value in `d`. */
  lemma {:induction false} UpdateLookup(d: Record, u: Record, k: string)
    requires DistinctKeys(u)
    ensures Lookup(Update(d, u), k) == if k in Keys(u) then Lookup(u, k) else Lookup(d, k)
  {
    UpdateUpToLookup(d, u, |u|, k);
    assert u[..|u|] == u;
  }

  lemma {:induction false} UpdateUpToLookup(d: Record, u: Record, n: nat, k: string)
    requires DistinctKeys(u) && n <= |u|
    ensures Lookup(UpdateUpTo(d, u, n), k) == if k in Keys(u[..n]) then Lookup(u[..n], k) else Lookup(d, k)
    decreases n
  {
    if n > 0 {
      UpdateUpToLookup(d, u, n - 1, k);
      UpdateStep(UpdateUpTo(d, u, n - 1), d, u, n, k);
    }
  }

  /** In a dict, the key at position `n - 1` is not among the keys before it. */
  lemma {:induction false} FreshLast(u: Record, n: nat)
    requires DistinctKeys(u) && 0 < n <= |u|
    ensures u[n - 1].key !in Keys(u[..n - 1])
  {
    var p := u[..n - 1];
    forall j | 0 <= j < |p| ensures Keys(p)[j] != u[n - 1].key {
      assert p[j] == u[j];
    }
  }

  /** One more assignment of `d.update(u)`: entry `n - 1` of `u` assigned on top of the state after the first `n - 1`. */
  lemma {:induction false} UpdateStep(q: Record, d: Record, u: Record, n: nat, k: string)
    requires DistinctKeys(u) && 0 < n <= |u|
    requires Lookup(q, k) == if k in Keys(u[..n - 1]) then Lookup(u[..n - 1], k) else Lookup(d, k)
    ensures Lookup(Put(q, u[n - 1].key, u[n - 1].val), k) == if k in Keys(u[..n]) then Lookup(u[..n], k) else Lookup(d, k)
  {
    var e := u[n - 1];
    var p := u[..n - 1];
    FreshLast(u, n);
    assert u[..n] == p + [e];
    if k == e.key {
      LookupSnocHit(p, e);
    } else {
      PutOther(q, e.key, e.val, k);
      LookupSnoc(p, e, k);
    }
  }

  /** An entry appended under a fresh key is what that key finds. */
  lemma {:induction false} LookupSnocHit(r: Record, e: Entry)
    requires e.key !in Keys(r)
    ensures Lookup(r + [e], e.key) == Some(e.val)
  {
    if r != [] {
      assert Keys(r) == [r[0].key] + Keys(r[1..]);
      assert (r + [e])[1..] == r[1..] + [e];
      LookupSnocHit(r[1..], e);
    } else {
      assert [] + [e] == [e];
    }
  }

  /** An entry appended under another key does not change what `k` finds. */
  lemma {:induction false} LookupSnoc(r: Record, e: Entry, k: string)
    requires e.key != k
    ensures Lookup(r + [e], k) == Lookup(r, k)
  {
    if r != [] {
      assert (r + [e])[1..] == r[1..] + [e];
      LookupSnoc(r[1..], e, k);
    } else {
      assert [] + [e] == [e];
      assert Lookup([e], k) == Lookup([e][1..], k);
    }
  }

  /** `Some(s)` becomes the string, `None` becomes JSON `null`. */
  function OptStr(s: Option<string>): Value
  {
    if s.Some? then Str(s.value) else Null
  }

  /** A string or `None`. */
  predicate StrOrNull(v: Value)
  {
    v.Str? || v.Null?
  }

  /** The concatenation of a list of lists, in order. */
  function Concat<T>(ss: seq<seq<T>>): seq<T>
  {
    if ss == [] then [] else Concat(ss[..|ss| - 1]) + ss[|ss| - 1]
  }

  /** Concatenating one more list at the front. */
  lemma {:induction false} ConcatCons<T>(x: seq<T>, ss: seq<seq<T>>)
    ensures Concat([x] + ss) == x + Concat(ss)
    decreases |ss|
  {
    if ss != [] {
      var last := ss[|ss| - 1];
      assert ([x] + ss)[..|ss|] == [x] + ss[..|ss| - 1];
      ConcatCons(x, ss[..|ss| - 1]);
    }
  }
}
