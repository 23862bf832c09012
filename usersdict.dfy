/** Python's insertion-ordered `dict` from user id to record, as
    `users_dict` in `parse_by_messages` and `parse_both` uses it: the keys
    in the order of their first insertion, and the current value per key. */
module UsersDict {
  import opened Records

  datatype Dict = Dict(order: seq<int>, entries: map<int, UserRecord>)

  ghost predicate Distinct(s: seq<int>) {
    forall i, j :: 0 <= i < j < |s| ==> s[i] != s[j]
  }

  /** The order lists every key exactly once. */
  ghost predicate Valid(d: Dict) {
    && Distinct(d.order)
    && (forall i :: 0 <= i < |d.order| ==> d.order[i] in d.entries)
    && (forall k :: k in d.entries ==> k in d.order)
  }

  /** The empty dict `{}`: no keys and no values. */
  const Empty: Dict := Dict([], map[])

  /** `d[k] = v`: a new key goes to the end; an existing key keeps its place
      and only its value is replaced. */
  function Assign(d: Dict, k: int, v: UserRecord): (r: Dict)
    requires Valid(d)
    ensures Valid(r)
    ensures k in r.entries && r.entries[k] == v
    ensures forall j :: j != k ==> (j in r.entries <==> j in d.entries)
    ensures forall j :: j != k && j in d.entries ==> r.entries[j] == d.entries[j]
    ensures k in d.entries ==> r.order == d.order
    ensures k !in d.entries ==> r.order == d.order + [k]
  {
    if k in d.entries then Dict(d.order, d.entries[k := v])
    else Dict(d.order + [k], d.entries[k := v])
  }

  /** The values stored under `keys`, in that order. */
  function ValuesAt(keys: seq<int>, entries: map<int, UserRecord>): (vs: seq<UserRecord>)
    requires forall i :: 0 <= i < |keys| ==> keys[i] in entries
    ensures |vs| == |keys|
    ensures forall i :: 0 <= i < |keys| ==> vs[i] == entries[keys[i]]
  {
    if keys == [] then [] else [entries[keys[0]]] + ValuesAt(keys[1..], entries)
  }

  /** The list `list(d.values())` returns: the stored values, one per key,
      in insertion order. */
  function Values(d: Dict): (vs: seq<UserRecord>)
    requires Valid(d)
    ensures |vs| == |d.order| == |d.entries|
    ensures forall i :: 0 <= i < |d.order| ==> vs[i] == d.entries[d.order[i]]
  {
    DistinctCount(d);
    ValuesAt(d.order, d.entries)
  }

  /** A valid dict has as many keys as its order has entries. */
  lemma DistinctCount(d: Dict)
    requires Valid(d)
    ensures |d.order| == |d.entries|
  {
    forall k | k in d.order ensures k in d.entries {
      var i :| 0 <= i < |d.order| && d.order[i] == k;
    }
    var ks := set k | k in d.order;
    forall k ensures k in d.entries.Keys <==> k in ks {
    }
    assert d.entries.Keys == ks;
    DistinctCard(d.order);
  }

  lemma {:induction false} DistinctCard(s: seq<int>)
    requires Distinct(s)
    ensures |set k | k in s| == |s|
  {
    if s != [] {
      var t, last := s[..|s| - 1], s[|s| - 1];
      assert s == t + [last];
      assert last !in t;
      DistinctCard(t);
      assert (set k | k in s) == (set k | k in t) + {last};
    }
  }

  /** `s` lists its elements by strictly increasing `rank`. */
  ghost predicate Ranked(s: seq<int>, rank: int -> int) {
    forall a, b :: 0 <= a < b < |s| ==> rank(s[a]) < rank(s[b])
  }

  /** Every element of `s` occurs in `t`. */
  ghost predicate Covers(s: seq<int>, t: seq<int>) {
    forall a :: 0 <= a < |s| ==> s[a] in t
  }

  /** Sequences in the same rank order with the same elements start alike. */
  lemma RankedHead(s: seq<int>, t: seq<int>, rank: int -> int)
    requires s != [] && t != []
    requires Ranked(s, rank) && Ranked(t, rank) && Covers(s, t) && Covers(t, s)
    ensures s[0] == t[0]
  {
    assert s[0] in t;
    assert t[0] in s;
    var j :| 0 <= j < |t| && t[j] == s[0];
    var i :| 0 <= i < |s| && s[i] == t[0];
  }

  /** Removing a common first element keeps the rank order and the cover. */
  lemma RankedTail(s: seq<int>, t: seq<int>, rank: int -> int)
    requires s != [] && t != [] && s[0] == t[0]
    requires Ranked(s, rank) && Ranked(t, rank) && Covers(s, t)
    ensures Ranked(s[1..], rank) && Covers(s[1..], t[1..])
  {
    forall a | 0 <= a < |s[1..]| ensures s[1..][a] in t[1..] {
      assert rank(s[0]) < rank(s[a + 1]);
      assert s[a + 1] in t;
      var b :| 0 <= b < |t| && t[b] == s[a + 1];
      assert t[1..][b - 1] == s[1..][a];
    }
  }

  /** A non-empty covered sequence has its first element in the cover. */
  lemma CoversFirst(s: seq<int>, t: seq<int>)
    requires Covers(s, t)
    ensures |s| == 0 || s[0] in t
  {
  }

  /** Two key sequences with the same elements, each strictly increasing in
      the same rank, are the same sequence. */
  lemma {:induction false} RankedUnique(s: seq<int>, t: seq<int>, rank: int -> int)
    requires Ranked(s, rank) && Ranked(t, rank) && Covers(s, t) && Covers(t, s)
    ensures s == t
  {
    CoversFirst(s, t);
    CoversFirst(t, s);
    if s != [] && t != [] {
      assert s[0] == t[0] && s[1..] == t[1..] by {
        RankedHead(s, t, rank);
        RankedTail(s, t, rank);
        RankedTail(t, s, rank);
        RankedUnique(s[1..], t[1..], rank);
      }
      assert s == [s[0]] + s[1..] && t == [t[0]] + t[1..];
    }
  }

  /** The order of `d` lists its keys by strictly increasing `rank`. */
  ghost predicate RankedBy(d: Dict, rank: int -> int) {
    Ranked(d.order, rank)
  }

  /** Two consistent dicts with the same entries whose orders follow the same
      rank are equal: order and contents together determine the dict. */
  lemma RankedDictUnique(d1: Dict, d2: Dict, rank: int -> int)
    requires Valid(d1) && Valid(d2) && d1.entries == d2.entries
    requires RankedBy(d1, rank) && RankedBy(d2, rank)
    ensures d1 == d2
  {
    RankedUnique(d1.order, d2.order, rank);
  }
}
