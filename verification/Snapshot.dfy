/**
 The argument map and its snapshot as they lie in memory: Go slices over shared arrays, append that writes in
 place while there is capacity, and the clone that puts all copies into one backing array. The operations
 refine those on plain maps in module Tracking, and none of them reaches the snapshot.
 */
module Snapshot {
  import opened Patch
  import opened Tracking

  /** A Go slice: `len` elements of `arr` from `off` on, with room for `cap`. */
  datatype Slice = Slice(arr: array<string>, off: nat, len: nat, cap: nat)

  predicate SliceFits(s: Slice) {
    s.len <= s.cap && s.off + s.cap <= s.arr.Length
  }

  function Elems(s: Slice): seq<string>
    requires SliceFits(s)
    reads s.arr
  {
    s.arr[s.off..s.off + s.len]
  }

  type SliceMap = map<string, Slice>

  predicate SlicesFit(m: SliceMap) {
    forall k :: k in m ==> SliceFits(m[k])
  }

  ghost function Arrays(m: SliceMap): set<array<string>> {
    set k | k in m :: m[k].arr
  }

  /** The plain map a map of slices stands for. */
  ghost function Contents(m: SliceMap): Values
    requires SlicesFit(m)
    reads Arrays(m)
  {
    map k | k in m :: Elems(m[k])
  }

  lemma ContentsAre(m: SliceMap, want: Values)
    requires SlicesFit(m) && m.Keys == want.Keys && forall k :: k in m ==> Elems(m[k]) == want[k]
    ensures Contents(m) == want
  {}

  lemma ArraysPut(m: SliceMap, name: string, r: Slice)
    ensures Arrays(m[name := r]) <= Arrays(m) + {r.arr}
  {
    assert forall k :: k in m && k != name ==> m[k].arr in Arrays(m);
  }

  // ----- Copy and append -----

  /** `copy(dst, src)`: as many strings as the shorter one has. */
  method Copy(dst: Slice, src: Slice) returns (n: nat)
    requires SliceFits(dst) && SliceFits(src) && dst.arr != src.arr
    modifies dst.arr
    ensures n == if src.len < dst.len then src.len else dst.len
    ensures dst.arr[dst.off..dst.off + n] == src.arr[src.off..src.off + n]
    ensures dst.arr[..dst.off] == old(dst.arr[..dst.off]) && dst.arr[dst.off + n..] == old(dst.arr[dst.off + n..])
  {
    n := if src.len < dst.len then src.len else dst.len;
    for i := 0 to n
      invariant dst.arr[dst.off..dst.off + i] == src.arr[src.off..src.off + i]
      invariant forall j :: 0 <= j < dst.arr.Length && !(dst.off <= j < dst.off + i) ==> dst.arr[j] == old(dst.arr[j])
    {
      dst.arr[dst.off + i] := src.arr[src.off + i];
    }
  }

  /** `append(s, x)`: in place while there is capacity, otherwise into a new array; `spare` is how much more
      than needed the runtime allocates. */
  method Grow(s: Slice, x: string, spare: nat) returns (r: Slice)
    requires SliceFits(s)
    modifies s.arr
    ensures SliceFits(r) && Elems(r) == old(Elems(s)) + [x]
    ensures s.len == s.cap ==> fresh(r.arr) && s.arr[..] == old(s.arr[..])
    ensures s.len < s.cap ==> r.arr == s.arr && r.off == s.off
    ensures forall i :: 0 <= i < s.arr.Length && i != s.off + s.len ==> s.arr[i] == old(s.arr[i])
  {
    if s.len < s.cap {
      s.arr[s.off + s.len] := x;
      r := s.(len := s.len + 1);
      assert s.arr[s.off..s.off + s.len] == old(Elems(s));
    } else {
      var bigger := new string[s.len + 1 + spare];
      var n := Copy(Slice(bigger, 0, s.len, s.len), s);
      bigger[s.len] := x;
      r := Slice(bigger, 0, s.len + 1, s.len + 1 + spare);
      assert bigger[0..n] == old(Elems(s));
    }
  }

  // ----- cloneUrlValues -----

  ghost function SumLen(m: SliceMap, keys: set<string>): nat
    requires keys <= m.Keys
  {
    if keys == {} then 0 else
      var k :| k in keys;
      m[k].len + SumLen(m, keys - {k})
  }

  /** The sum does not depend on the order in which the map is walked. */
  lemma {:induction false} SumLenRemove(m: SliceMap, keys: set<string>, k: string)
    requires keys <= m.Keys && k in keys
    ensures SumLen(m, keys) == m[k].len + SumLen(m, keys - {k})
  {
    var j :| j in keys && SumLen(m, keys) == m[j].len + SumLen(m, keys - {j});
    if j != k {
      SumLenRemove(m, keys - {j}, k);
      SumLenRemove(m, keys - {k}, j);
      assert keys - {j} - {k} == keys - {k} - {j};
    }
  }

  /** The first loop: how many strings there are in all. */
  method CountValues(m: SliceMap) returns (nv: nat)
    ensures nv == SumLen(m, m.Keys)
  {
    nv := 0;
    var todo := m.Keys;
    while todo != {}
      invariant todo <= m.Keys
      invariant nv + SumLen(m, todo) == SumLen(m, m.Keys)
    {
      var k :| k in todo;
      SumLenRemove(m, todo, k);
      nv := nv + m[k].len;
      todo := todo - {k};
    }
  }

  predicate Apart(a: Slice, b: Slice) {
    a.arr != b.arr || a.off + a.cap <= b.off || b.off + b.cap <= a.off
  }

  /** Copies of one map in one backing array: own ranges, no spare capacity. */
  predicate Packed(m: SliceMap, backing: array<string>) {
    && SlicesFit(m)
    && (forall k :: k in m ==> m[k].arr == backing && m[k].len == m[k].cap)
    && (forall j, k :: j in m && k in m && j != k ==> Apart(m[j], m[k]))
  }

  ghost function PackedContents(m: SliceMap, backing: array<string>): Values
    requires Packed(m, backing)
    reads backing
  {
    map k | k in m :: Elems(m[k])
  }

  lemma PackOneMore(m: SliceMap, backing: array<string>, k: string, s: Slice)
    requires Packed(m, backing) && k !in m && SliceFits(s) && s.arr == backing && s.len == s.cap
    requires forall j :: j in m ==> m[j].off + m[j].cap <= s.off
    ensures Packed(m[k := s], backing)
  {
    var m' := m[k := s];
    forall i, j | i in m' && j in m' && i != j
      ensures Apart(m'[i], m'[j])
    {
      if i in m && j in m { assert Apart(m[i], m[j]); }
    }
  }

  lemma SubSlice(cells: seq<string>, lo: nat, hi: nat, bound: nat)
    requires lo <= hi <= bound <= |cells|
    ensures cells[..bound][lo..hi] == cells[lo..hi]
  {}

  /** The copies made so far are whole, packed, and lie before what is left of the array, `sv`; `cells` is
      what the array holds. */
  predicate Copied(newV: SliceMap, sv: Slice, want: Values, cells: seq<string>) {
    && Packed(newV, sv.arr)
    && SliceFits(sv) && sv.len == sv.cap && sv.arr.Length == |cells|
    && (forall k :: k in newV ==> newV[k].off + newV[k].cap <= sv.off)
    && (forall k :: k in newV ==> k in want && cells[newV[k].off..newV[k].off + newV[k].len] == want[k])
  }

  lemma CopiedOneMore(newV: SliceMap, sv: Slice, want: Values, cells: seq<string>, cells': seq<string>, k: string)
    requires Copied(newV, sv, want, cells) && |cells'| == |cells| && cells'[..sv.off] == cells[..sv.off]
    requires k !in newV && k in want && |want[k]| <= sv.len
    requires cells'[sv.off..sv.off + |want[k]|] == want[k]
    ensures var n := |want[k]|;
      Copied(newV[k := Slice(sv.arr, sv.off, n, n)], Slice(sv.arr, sv.off + n, sv.len - n, sv.cap - n), want, cells')
  {
    PackOneMore(newV, sv.arr, k, Slice(sv.arr, sv.off, |want[k]|, |want[k]|));
    forall j | j in newV
      ensures cells'[newV[j].off..newV[j].off + newV[j].len] == want[j]
    {
      var lo, hi := newV[j].off, newV[j].off + newV[j].len;
      SubSlice(cells, lo, hi, sv.off);
      SubSlice(cells', lo, hi, sv.off);
    }
  }

  /** One turn of the second loop: copy a list to the front of what is left, keep exactly that as the clone's
      slice, and move on. */
  method PlaceCopy(newV: SliceMap, sv: Slice, k: string, src: Slice, ghost want: Values)
    returns (newV': SliceMap, sv': Slice)
    requires Copied(newV, sv, want, sv.arr[..]) && k !in newV
    requires SliceFits(src) && src.arr != sv.arr && src.len <= sv.len && k in want && Elems(src) == want[k]
    modifies sv.arr
    ensures sv' == Slice(sv.arr, sv.off + src.len, sv.len - src.len, sv.cap - src.len)
    ensures newV'.Keys == newV.Keys + {k} && Copied(newV', sv', want, sv.arr[..])
  {
    ghost var cells := sv.arr[..];
    var n := Copy(sv, src);
    CopiedOneMore(newV, sv, want, cells, sv.arr[..], k);
    newV' := newV[k := Slice(sv.arr, sv.off, n, n)];
    sv' := Slice(sv.arr, sv.off + n, sv.len - n, sv.cap - n);
  }

  /** `cloneUrlValues`: no copy is cut short, the clone is deeply equal, and its slices own disjoint ranges of
      one new array, each with no capacity to spare. */
  method CloneUrlValues(oldV: SliceMap) returns (newV: SliceMap, backing: array<string>)
    requires SlicesFit(oldV)
    ensures fresh(backing) && Packed(newV, backing) && newV.Keys == oldV.Keys
    ensures forall k :: k in newV ==> Elems(newV[k]) == old(Elems(oldV[k]))
  {
    var nv := CountValues(oldV);
    backing := new string[nv];
    newV := CopyAll(oldV, backing, Contents(oldV));
  }

  /** The second loop. */
  method CopyAll(oldV: SliceMap, backing: array<string>, ghost want: Values) returns (newV: SliceMap)
    requires SlicesFit(oldV) && (forall k :: k in oldV ==> oldV[k].arr != backing) &&
      backing.Length == SumLen(oldV, oldV.Keys)
    requires Contents(oldV) == want
    modifies backing
    ensures Packed(newV, backing) && newV.Keys == oldV.Keys
    ensures forall k :: k in newV ==> Elems(newV[k]) == want[k]
  {
    var sv := Slice(backing, 0, backing.Length, backing.Length);
    newV := map[];
    var todo := oldV.Keys;
    while todo != {}
      invariant todo <= oldV.Keys && newV.Keys == oldV.Keys - todo
      invariant sv.arr == backing && sv.len == SumLen(oldV, todo) && Copied(newV, sv, want, backing[..])
    {
      var k :| k in todo;
      SumLenRemove(oldV, todo, k);
      todo := todo - {k};
      assert oldV.Keys - todo == newV.Keys + {k};
      newV, sv := PlaceCopy(newV, sv, k, oldV[k], want);
    }
  }

  // ----- The live arguments beside their snapshot -----

  class ArgStore {
    var args: SliceMap
    var rawArgs: SliceMap
    ghost var backing: array<string>

    ghost predicate Valid()
      reads this
    {
      && SlicesFit(args)
      && (forall j, k :: j in args && k in args && j != k ==> args[j].arr != args[k].arr)
      && (forall j :: j in args ==> args[j].arr != backing)
      && Packed(rawArgs, backing)
    }

    ghost function Live(): Values
      requires Valid()
      reads this, Arrays(args)
    {
      Contents(args)
    }

    ghost function Raw(): Values
      requires Valid()
      reads this, backing
    {
      PackedContents(rawArgs, backing)
    }

    constructor ()
      ensures Valid() && Live() == map[] && Raw() == map[] && fresh(backing)
    {
      args, rawArgs := map[], map[];
      backing := new string[0];
    }

    /** `args.Add`: append to the name's slice, or to none. */
    method AddArg(name: string, value: string, spare: nat)
      requires Valid()
      modifies this`args, Arrays(args)
      ensures Valid() && fresh(Arrays(args) - old(Arrays(args)))
      ensures Live() == Edited(old(Live()), name, Edit.Append(value))
      ensures Raw() == old(Raw())
    {
      if name in args {
        AddMore(name, value, spare);
      } else {
        AddFirst(name, value, spare);
      }
    }

    method AddFirst(name: string, value: string, spare: nat)
      requires Valid() && name !in args
      modifies this`args
      ensures Valid() && fresh(Arrays(args) - old(Arrays(args)))
      ensures Live() == old(Live())[name := [] + [value]]
      ensures Raw() == old(Raw())
    {
      var r := GrowNone(value, spare);
      ReplaceArg(name, r, Live());
    }

    method AddMore(name: string, value: string, spare: nat)
      requires Valid() && name in args
      modifies this`args, args[name].arr
      ensures Valid() && fresh(Arrays(args) - old(Arrays(args)))
      ensures Live() == old(Live())[name := old(Live())[name] + [value]]
      ensures Raw() == old(Raw())
    {
      ghost var live := Live();
      var r := GrowArg(name, value, spare);
      ReplaceArg(name, r, live);
    }

    method GrowNone(value: string, spare: nat) returns (r: Slice)
      ensures SliceFits(r) && fresh(r.arr) && Elems(r) == [] + [value]
    {
      var none := new string[0];
      r := Grow(Slice(none, 0, 0, 0), value, spare);
    }

    method GrowArg(name: string, value: string, spare: nat) returns (r: Slice)
      requires Valid() && name in args
      modifies args[name].arr
      ensures Valid() && SliceFits(r) && (r.arr == args[name].arr || fresh(r.arr))
      ensures Elems(r) == old(Live())[name] + [value]
      ensures forall k :: k in args && k != name ==> Elems(args[k]) == old(Live())[k]
      ensures Raw() == old(Raw())
    {
      ghost var kept := Raw();
      r := Grow(args[name], value, spare);
      forall k | k in rawArgs
        ensures Elems(rawArgs[k]) == kept[k]
      {
        assert rawArgs[k].arr == backing;
      }
    }

    /** A slice of its own array takes the place of the name's; the other names are as in `live`. */
    method ReplaceArg(name: string, r: Slice, ghost live: Values)
      requires Valid() && SliceFits(r) && r.arr != backing
      requires forall k :: k != name ==> (k in args <==> k in live)
      requires forall k :: k in args && k != name ==> args[k].arr != r.arr && Elems(args[k]) == live[k]
      modifies this`args
      ensures Valid() && args == old(args)[name := r] && Arrays(args) <= old(Arrays(args)) + {r.arr}
      ensures Live() == live[name := Elems(r)] && Raw() == old(Raw())
    {
      ArraysPut(args, name, r);
      args := args[name := r];
      ContentsAre(args, live[name := Elems(r)]);
    }

    method SetArg(name: string, value: string)
      requires Valid()
      modifies this`args
      ensures Valid() && fresh(Arrays(args) - old(Arrays(args)))
      ensures Live() == Edited(old(Live()), name, Edit.Set(value))
      ensures Raw() == old(Raw())
    {
      var one := new string[1](_ => value);
      assert one[0..1] == [value];
      ReplaceArg(name, Slice(one, 0, 1, 1), Live());
    }

    method DelArg(name: string)
      requires Valid()
      modifies this`args
      ensures Valid() && fresh(Arrays(args) - old(Arrays(args)))
      ensures Live() == Edited(old(Live()), name, Edit.Del)
      ensures Raw() == old(Raw())
    {
      ghost var want := Edited(Live(), name, Edit.Del);
      args := args - {name};
      ContentsAre(args, want);
    }

    /** A write through the map to one element, `args[name][i] = value`. */
    method WriteArg(name: string, i: nat, value: string)
      requires Valid() && name in args && i < args[name].len
      modifies args[name].arr
      ensures Valid()
      ensures Live() == old(Live())[name := old(Live())[name][i := value]]
      ensures Raw() == old(Raw())
    {
      ghost var want, kept := Live()[name := Live()[name][i := value]], Raw();
      var s := args[name];
      s.arr[s.off + i] := value;
      assert Elems(s) == want[name];
      ContentsAre(args, want);
      ContentsAre(rawArgs, kept);
    }

    /** The first use of Args(): decode with Add, then clone. Live arguments and snapshot are the message's. */
    method OpenArgs(entries: seq<Entry>, spare: nat)
      requires Valid() && args == map[]
      modifies this
      ensures Valid() && fresh(Arrays(args)) && fresh(backing)
      ensures Live() == Group(entries) && Raw() == Group(entries)
    {
      DecodeArgs(entries, spare);
      ghost var live := Live();
      var clone, b := CloneUrlValues(args);
      rawArgs := clone;
      backing := b;
      ContentsAre(args, live);
      ContentsAre(rawArgs, live);
    }

    method DecodeArgs(entries: seq<Entry>, spare: nat)
      requires Valid() && args == map[]
      modifies this`args
      ensures Valid() && fresh(Arrays(args)) && Live() == Group(entries)
    {
      for i := 0 to |entries|
        invariant Valid() && fresh(Arrays(args)) && Live() == Group(entries[..i])
      {
        assert entries[..i + 1][..i] == entries[..i];
        AddArg(entries[i].name, Text(entries[i].value), spare);
      }
      assert entries[..|entries|] == entries;
    }

    /** Why the clone's slices are capped: appending to one of them moves it away instead of running into its
        neighbour. */
    method AppendToSnapshot(name: string, value: string, spare: nat) returns (r: Slice)
      requires Valid() && name in rawArgs
      modifies backing
      ensures Valid() && fresh(r.arr) && SliceFits(r) && Elems(r) == old(Raw())[name] + [value]
      ensures Raw() == old(Raw()) && Live() == old(Live())
    {
      r := Grow(rawArgs[name], value, spare);
    }
  }
}
