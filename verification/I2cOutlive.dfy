/** When a bus outlives its last device. */
module I2cOutlive {
  import opened I2cSpec
  import opened I2cInvariant

  /** One device after the other is deleted. */
  function DeleteEach(c: Config, s: State, ids: seq<nat>, locks: seq<bool>): (t: State)
    requires Shaped(c, s) && |ids| == |locks|
    ensures Shaped(c, t)
  {
    if ids == [] then s
    else
      var n := |ids| - 1;
      DeleteMutex(c, DeleteEach(c, s, ids[..n], locks[..n]), ids[n], locks[n]).0
  }

  function Missed(locks: seq<bool>): nat {
    if locks == [] then 0 else Missed(locks[..|locks| - 1]) + if locks[|locks| - 1] then 0 else 1
  }

  predicate Distinct(ids: seq<nat>) {
    forall i, j :: 0 <= i < j < |ids| ==> ids[i] != ids[j]
  }

  /** What one deletion of an added device leaves on its port. */
  lemma DeletedOne(c: Config, s: State, p: nat, id: nat, lock: bool)
    requires Inv(c, s) && p < c.ports && id in On(s, p)
    ensures var t := DeleteMutex(c, s, id, lock).0;
      && Inv(c, t) && On(t, p) == On(s, p) - {id}
      && t.spare[p] == s.spare[p] + (if lock then 0 else 1)
      && (t.ports[p].installed <==> On(t, p) != {} || t.spare[p] > 0)
  {
    var t := DeleteMutex(c, s, id, lock).0;
    DeleteMutexInv(c, s, id, lock);
    assert Counted(s, p) && Counted(t, p);
    assert On(t, p) == On(s, p) - {id} by { assert id !in t.added; }
    assert |On(t, p)| == |On(s, p)| - 1;
  }

  lemma {:induction false} DeletedEach(c: Config, s: State, p: nat, ids: seq<nat>, locks: seq<bool>)
    requires Inv(c, s) && p < c.ports && |ids| == |locks| && Distinct(ids) && forall id | id in ids :: id in On(s, p)
    ensures var t := DeleteEach(c, s, ids, locks);
      && Inv(c, t) && On(t, p) == On(s, p) - (set id | id in ids)
      && t.spare[p] == s.spare[p] + Missed(locks)
      && (ids != [] ==> (t.ports[p].installed <==> On(t, p) != {} || t.spare[p] > 0))
  {
    if ids != [] {
      var n := |ids| - 1;
      DeletedEach(c, s, p, ids[..n], locks[..n]);
      var t := DeleteEach(c, s, ids[..n], locks[..n]);
      assert ids[n] !in ids[..n];
      DeletedOne(c, t, p, ids[n], locks[n]);
      assert (set id | id in ids) == (set id | id in ids[..n]) + {ids[n]};
    }
  }

  /** After all devices of a port have been deleted, in any order, its bus is still there if and only if some of its
      references belonged to none of them, or some deletion missed the lock; that many references are left. */
  lemma OutliveLaw(c: Config, s: State, p: nat, ids: seq<nat>, locks: seq<bool>)
    requires Inv(c, s) && p < c.ports && |ids| == |locks| && Distinct(ids)
    requires ids != [] && forall id :: id in ids <==> id in On(s, p)
    ensures var t := DeleteEach(c, s, ids, locks);
      && t.ports[p].refs == s.spare[p] + Missed(locks)
      && (t.ports[p].installed <==> s.spare[p] > 0 || Missed(locks) > 0)
  {
    DeletedEach(c, s, p, ids, locks);
    var t := DeleteEach(c, s, ids, locks);
    assert Counted(t, p);
    assert On(t, p) == {};
  }
}
