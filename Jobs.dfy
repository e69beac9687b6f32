/** "One live job per key": the shape shared by the auto-clean timer map
    (`autoCleanTimers`, a `setInterval` handle per channel) and the
    notification map (`userSchedules`, a `node-schedule` job per user).
    Handles are abstract: each remembers its key and trigger and whether it
    is still live or was cancelled (`clearInterval`, `job.cancel()`). */
module Jobs {

  datatype Handle<K, T> = Handle(key: K, trigger: T, live: bool)

  /** The map from key to the index of its handle in `pool`, and every
      handle ever created, oldest first. */
  datatype Registry<K, T> = Registry(index: map<K, nat>, pool: seq<Handle<K, T>>)

  function Empty<K, T>(): Registry<K, T> {
    Registry(map[], [])
  }

  /** The number of live handles. */
  function LiveCount<K, T>(pool: seq<Handle<K, T>>): nat
    decreases |pool|
  {
    if |pool| == 0 then 0
    else LiveCount(pool[..|pool| - 1]) + (if pool[|pool| - 1].live then 1 else 0)
  }

  /** The indices of the live handles armed for `k`. */
  ghost function LiveHandles<K, T>(r: Registry<K, T>, k: K): set<nat> {
    set i | 0 <= i < |r.pool| && r.pool[i].live && r.pool[i].key == k
  }

  /** The registry invariant: each key in the map points at a live handle of
      its own, every live handle is the one its key points at, and so there
      are exactly as many live handles as keys. */
  ghost predicate Consistent<K, T>(r: Registry<K, T>) {
    && (forall k :: k in r.index ==>
          r.index[k] < |r.pool| && r.pool[r.index[k]].key == k && r.pool[r.index[k]].live)
    && (forall i :: 0 <= i < |r.pool| && r.pool[i].live ==>
          r.pool[i].key in r.index && r.index[r.pool[i].key] == i)
    && LiveCount(r.pool) == |r.index|
  }

  /** What is armed: each key with the trigger of the handle it points at
      (the JavaScript Map as the program sees it). */
  function Live<K, T>(r: Registry<K, T>): (m: map<K, T>)
    ensures m.Keys <= r.index.Keys
  {
    map k | k in r.index && r.index[k] < |r.pool| :: r.pool[r.index[k]].trigger
  }

  /** Marks the handle at `i` cancelled; a no-op on an index out of range. */
  function Cancel<K, T>(pool: seq<Handle<K, T>>, i: nat): (p: seq<Handle<K, T>>)
    ensures |p| == |pool|
    ensures forall j :: 0 <= j < |pool| && j != i ==> p[j] == pool[j]
    ensures i < |pool| ==> p[i] == pool[i].(live := false)
  {
    if i < |pool| then pool[i := pool[i].(live := false)] else pool
  }

  /** Registers a job for `k`: cancels the handle `k` already has, if any,
      then arms a fresh live handle and points `k` at it. */
  function Arm<K, T>(r: Registry<K, T>, k: K, t: T): Registry<K, T> {
    var pool := if k in r.index then Cancel(r.pool, r.index[k]) else r.pool;
    Registry(r.index[k := |pool|], pool + [Handle(k, t, true)])
  }

  /** Stops the job for `k`: cancels its handle and removes the key; no
      change at all when `k` has no job. */
  function Disarm<K, T>(r: Registry<K, T>, k: K): Registry<K, T> {
    if k in r.index then Registry(r.index - {k}, Cancel(r.pool, r.index[k])) else r
  }

  lemma {:induction false} LiveCountAppend<K, T>(pool: seq<Handle<K, T>>, h: Handle<K, T>)
    ensures LiveCount(pool + [h]) == LiveCount(pool) + (if h.live then 1 else 0)
  {
    assert (pool + [h])[..|pool|] == pool;
  }

  /** Cancelling a live handle lowers the live count by exactly one. */
  lemma {:induction false} LiveCountCancel<K, T>(pool: seq<Handle<K, T>>, i: nat)
    requires i < |pool| && pool[i].live
    ensures LiveCount(Cancel(pool, i)) == LiveCount(pool) - 1
    decreases |pool|
  {
    var p := Cancel(pool, i);
    var n := |pool| - 1;
    if i == n {
      assert p[..n] == pool[..n];
    } else {
      assert p[..n] == Cancel(pool[..n], i);
      LiveCountCancel(pool[..n], i);
    }
  }

  lemma EmptyConsistent<K, T>()
    ensures Consistent(Empty<K, T>()) && Live(Empty<K, T>()) == map[]
  {
  }

  /** Under the invariant the armed keys are exactly the keys of the map. */
  lemma LiveKeys<K, T>(r: Registry<K, T>)
    requires Consistent(r)
    ensures Live(r).Keys == r.index.Keys
    ensures |Live(r)| == |r.index| == LiveCount(r.pool)
  {
    assert Live(r).Keys == r.index.Keys;
  }

  /** At most one live handle per key: the one the map points at. */
  lemma OneLivePerKey<K, T>(r: Registry<K, T>, k: K)
    requires Consistent(r)
    ensures k in r.index ==> LiveHandles(r, k) == {r.index[k]}
    ensures k !in r.index ==> LiveHandles(r, k) == {}
  {
  }

  /** Registering keeps the invariant; afterwards `k` is armed with `t`, its
      previous handle (if any) is cancelled, and no other key changes. */
  lemma ArmConsistent<K, T>(r: Registry<K, T>, k: K, t: T)
    requires Consistent(r)
    ensures Consistent(Arm(r, k, t))
    ensures Live(Arm(r, k, t)) == Live(r)[k := t]
    ensures k in r.index ==> !Arm(r, k, t).pool[r.index[k]].live
    ensures |Arm(r, k, t).index| == |r.index| + (if k in r.index then 0 else 1)
  {
    var pool := if k in r.index then Cancel(r.pool, r.index[k]) else r.pool;
    var r' := Arm(r, k, t);
    assert r'.pool[..|pool|] == pool;
    ArmIndex(r, k, t);
    ArmPool(r, k, t);
    if k in r.index {
      LiveCountCancel(r.pool, r.index[k]);
      assert r'.index.Keys == r.index.Keys;
    } else {
      assert r'.index.Keys == r.index.Keys + {k};
    }
    LiveCountAppend(pool, Handle(k, t, true));
    ArmLive(r, k, t);
  }

  lemma ArmIndex<K, T>(r: Registry<K, T>, k: K, t: T)
    requires Consistent(r)
    ensures var r' := Arm(r, k, t);
      forall j :: j in r'.index ==>
        r'.index[j] < |r'.pool| && r'.pool[r'.index[j]].key == j && r'.pool[r'.index[j]].live
  {
    var r' := Arm(r, k, t);
    forall j | j in r'.index
      ensures r'.index[j] < |r'.pool| && r'.pool[r'.index[j]].key == j && r'.pool[r'.index[j]].live
    {
      if j != k {
        assert r.pool[r.index[j]].key == j;
        assert k in r.index ==> r.index[j] != r.index[k];
      }
    }
  }

  lemma ArmPool<K, T>(r: Registry<K, T>, k: K, t: T)
    requires Consistent(r)
    ensures var r' := Arm(r, k, t);
      forall i :: 0 <= i < |r'.pool| && r'.pool[i].live ==>
        r'.pool[i].key in r'.index && r'.index[r'.pool[i].key] == i
  {
  }

  lemma ArmLive<K, T>(r: Registry<K, T>, k: K, t: T)
    requires Consistent(r)
    ensures Live(Arm(r, k, t)) == Live(r)[k := t]
  {
    var r' := Arm(r, k, t);
    forall j | j in r.index && j != k
      ensures r'.pool[r'.index[j]] == r.pool[r.index[j]]
    {
      assert r.pool[r.index[j]].key == j;
    }
    assert Live(r') == Live(r)[k := t];
  }

  /** Stopping keeps the invariant and removes exactly `k`'s job. */
  lemma DisarmConsistent<K, T>(r: Registry<K, T>, k: K)
    requires Consistent(r)
    ensures Consistent(Disarm(r, k))
    ensures Live(Disarm(r, k)) == Live(r) - {k}
    ensures k in r.index ==> !Disarm(r, k).pool[r.index[k]].live
  {
    if k in r.index {
      var r' := Disarm(r, k);
      LiveCountCancel(r.pool, r.index[k]);
      assert r'.index.Keys == r.index.Keys - {k};
      assert Live(r') == Live(r) - {k};
    }
  }

  /** Stopping twice is stopping once, and stopping a key with no job
      changes nothing. */
  lemma DisarmIdempotent<K, T>(r: Registry<K, T>, k: K)
    ensures k !in Disarm(r, k).index
    ensures Disarm(Disarm(r, k), k) == Disarm(r, k)
    ensures k !in r.index ==> Disarm(r, k) == r
  {
  }

  /** Registering the same key twice leaves exactly one live handle for it,
      carrying the second trigger. */
  lemma ArmTwice<K, T>(r: Registry<K, T>, k: K, t1: T, t2: T)
    requires Consistent(r)
    ensures var r2 := Arm(Arm(r, k, t1), k, t2);
      Consistent(r2) && |LiveHandles(r2, k)| == 1 && Live(r2)[k] == t2
  {
    ArmConsistent(r, k, t1);
    var r1 := Arm(r, k, t1);
    ArmConsistent(r1, k, t2);
    OneLivePerKey(Arm(r1, k, t2), k);
  }
}
