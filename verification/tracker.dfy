/**
  The per-class protocol state tracker, written once and instantiated for cursors, tokens and
  blobs. It keeps the active table (session id to entity) and the dead list (entities removed
  since the last frame), and implements the alive / set / fseq state machine of one class.
 */
module Tracker {
  import opened Motion
  import opened Osc
  import Ordered

  datatype Tracker<P> = Tracker(active: map<int, Entity<P>>, dead: seq<Entity<P>>)

  /** What a frame terminator hands to consumers: the active table and the entities that died
      during the frame. It has the tracker's shape but is a separate type, because it is a
      snapshot taken when the frame ends, not state the handler keeps; the two cannot be
      mixed up. */
  datatype Frame<P> = Frame(active: map<int, Entity<P>>, dead: seq<Entity<P>>)

  function Empty<P>(): Tracker<P> {
    Tracker(map[], [])
  }

  /** A newly announced object: default attributes, state Pressed. */
  function Born<P>(id: int, blank: P): Entity<P> {
    Entity(id, Pressed, blank)
  }

  function Members(ids: seq<int>): set<int> {
    set k | k in ids
  }

  /** How often k is announced in ids. */
  function Count(ids: seq<int>, k: int): nat
    decreases |ids|
  {
    if ids == [] then 0 else (if ids[0] == k then 1 else 0) + Count(ids[1..], k)
  }

  lemma {:induction false} CountAbsent(ids: seq<int>, k: int)
    requires k !in ids
    ensures Count(ids, k) == 0
    decreases |ids|
  {
    if ids != [] {
      CountAbsent(ids[1..], k);
    }
  }

  lemma {:induction false} CountPresent(ids: seq<int>, k: int)
    requires k in ids
    ensures Count(ids, k) >= 1
    decreases |ids|
  {
    if ids[0] != k {
      CountPresent(ids[1..], k);
    }
  }

  /** The entity the alive pass stores under an announced id k, given the table it started
      from: an object that was active and is announced once keeps every attribute and becomes
      Stationary; any other announced id gets a fresh Pressed object. The second case covers
      an id announced twice: its first occurrence claims the old object, and its second finds
      it claimed already and replaces it with a fresh one. */
  function Announced<P>(prev: map<int, Entity<P>>, ids: seq<int>, k: int, blank: P): Entity<P> {
    if k in prev && Count(ids, k) == 1 then prev[k].(state := Stationary) else Born(k, blank)
  }

  /** The alive pass in progress: the new table built so far, and the part of the old table
      not yet claimed by an announced id. */
  datatype Diff<P> = Diff(claimed: map<int, Entity<P>>, unclaimed: map<int, Entity<P>>)

  /** One pass over the announced ids, left to right: an id still unclaimed moves its object
      into the new table as Stationary; any other id gets a fresh Pressed object. */
  function Claim<P>(ids: seq<int>, blank: P, d: Diff<P>): Diff<P>
    decreases |ids|
  {
    if ids == [] then d
    else
      var k := ids[0];
      var next :=
        if k in d.unclaimed then Diff(d.claimed[k := d.unclaimed[k].(state := Stationary)], d.unclaimed - {k})
        else Diff(d.claimed[k := Born(k, blank)], d.unclaimed);
      Claim(ids[1..], blank, next)
  }

  lemma {:induction false} ClaimSpec<P>(ids: seq<int>, blank: P, d: Diff<P>)
    ensures Claim(ids, blank, d).claimed.Keys == d.claimed.Keys + Members(ids)
    ensures Claim(ids, blank, d).unclaimed == d.unclaimed - Members(ids)
    ensures forall k :: k in d.claimed && k !in ids ==>
              Claim(ids, blank, d).claimed[k] == d.claimed[k]
    ensures forall k :: k in ids ==>
              Claim(ids, blank, d).claimed[k] == Announced(d.unclaimed, ids, k, blank)
    decreases |ids|
  {
    if ids != [] {
      var h, rest := ids[0], ids[1..];
      var next :=
        if h in d.unclaimed then Diff(d.claimed[h := d.unclaimed[h].(state := Stationary)], d.unclaimed - {h})
        else Diff(d.claimed[h := Born(h, blank)], d.unclaimed);
      assert Claim(ids, blank, d) == Claim(rest, blank, next);
      ClaimSpec(rest, blank, next);
      var r := Claim(rest, blank, next);
      assert Members(ids) == {h} + Members(rest) by {
        assert forall k :: k in ids <==> k == h || k in rest;
      }
      assert next.unclaimed == d.unclaimed - {h};
      assert r.unclaimed == d.unclaimed - Members(ids) by {
        assert r.unclaimed == next.unclaimed - Members(rest);
        assert forall k :: k in r.unclaimed <==> k in d.unclaimed && k !in Members(ids);
      }
      forall k | k in ids
        ensures r.claimed[k] == Announced(d.unclaimed, ids, k, blank)
      {
        assert Count(ids, k) == (if h == k then 1 else 0) + Count(rest, k);
        if k != h {
          assert k in rest;
          assert (k in next.unclaimed) == (k in d.unclaimed);
        } else if k in rest {
          CountPresent(rest, k);
          assert k !in next.unclaimed;
        } else {
          CountAbsent(rest, k);
          assert k in next.claimed;
        }
      }
    }
  }

  /** The previously active ids missing from the announcement, ascending: the order in which
      the leftover table is walked when the dead list is extended. */
  function Departed<P>(prev: map<int, Entity<P>>, ids: seq<int>): (ks: seq<int>)
    ensures forall k :: k in ks <==> k in prev && k !in ids
    ensures Ordered.StrictlyIncreasing(ks)
  {
    Ordered.Ascending((prev - Members(ids)).Keys)
  }

  /** When every previously active id is announced again, nothing departs. */
  lemma DepartedNone<P>(prev: map<int, Entity<P>>, ids: seq<int>)
    requires forall k :: k in prev ==> k in ids
    ensures Departed(prev, ids) == []
  {
    var s := (prev - Members(ids)).Keys;
    assert forall k :: k !in s;
    Ordered.NoMembersIsEmpty(s);
  }

  /** When exactly one previously active id is missing, it alone departs. */
  lemma DepartedOne<P>(prev: map<int, Entity<P>>, ids: seq<int>, x: int)
    requires x in prev && x !in ids
    requires forall k :: k in prev && k != x ==> k in ids
    ensures Departed(prev, ids) == [x]
  {
    var s := (prev - Members(ids)).Keys;
    assert forall k :: k !in s - {x};
    Ordered.NoMembersIsEmpty(s - {x});
    assert s == {x} + (s - {x});
    var ks := Ordered.Ascending(s);
    assert |ks| == 1 && x in ks;
  }

  /** The entities stored under the given ids, in the order of the ids. */
  function Pick<P>(m: map<int, Entity<P>>, ks: seq<int>): (es: seq<Entity<P>>)
    requires forall i :: 0 <= i < |ks| ==> ks[i] in m
    ensures |es| == |ks| && forall i :: 0 <= i < |ks| ==> es[i] == m[ks[i]]
  {
    seq(|ks|, i requires 0 <= i < |ks| => m[ks[i]])
  }

  /** The part of ClaimSpec about the old table: what is left of it is what was not
      announced. */
  lemma ClaimLeaves<P>(ids: seq<int>, blank: P, d: Diff<P>)
    ensures Claim(ids, blank, d).unclaimed == d.unclaimed - Members(ids)
  {
    ClaimSpec(ids, blank, d);
  }

  /** Picking from a part of a table is picking from the table. */
  lemma PickFromPart<P>(part: map<int, Entity<P>>, whole: map<int, Entity<P>>, ks: seq<int>)
    requires forall i :: 0 <= i < |ks| ==> ks[i] in part && ks[i] in whole
    requires forall k :: k in part && k in whole ==> part[k] == whole[k]
    ensures Pick(part, ks) == Pick(whole, ks)
  {
    var mine := Pick(part, ks);
    forall i | 0 <= i < |ks|
      ensures mine[i] == Pick(whole, ks)[i]
    {
      var k := ks[i];
      assert k in part && k in whole;
    }
  }

  /** The alive message: args[0] is the message-type tag and every later argument must be an
      integer session id. A malformed message changes nothing; a well-formed one rebuilds the
      active table from the announced ids and appends the leftover objects, ascending by id,
      to the dead list (see AliveKeys, AliveValues and AliveDead). */
  function Alive<P>(t: Tracker<P>, args: seq<Arg>, blank: P): (r: Tracker<P>)
    ensures !AllInts(Payload(args)) ==> r == t
    ensures |r.dead| >= |t.dead| && r.dead[..|t.dead|] == t.dead
  {
    var body := Payload(args);
    if !AllInts(body) then t
    else
      var d := Claim(Ints(body), blank, Diff(map[], t.active));
      Tracker(d.claimed, t.dead + Pick(d.unclaimed, Ordered.Ascending(d.unclaimed.Keys)))
  }

  /** After a well-formed alive message the active table holds exactly the announced ids. */
  lemma AliveKeys<P>(t: Tracker<P>, args: seq<Arg>, blank: P)
    requires AllInts(Payload(args))
    ensures Alive(t, args, blank).active.Keys == Members(Ints(Payload(args)))
  {
    ClaimSpec(Ints(Payload(args)), blank, Diff(map[], t.active));
  }

  /** Each announced id holds the object described by Announced: a previously active object
      announced once keeps all its attributes and becomes Stationary, any other id is a fresh
      Pressed object. */
  lemma AliveValues<P>(t: Tracker<P>, args: seq<Arg>, blank: P)
    requires AllInts(Payload(args))
    ensures var r, ids := Alive(t, args, blank), Ints(Payload(args));
            forall k :: k in r.active ==> r.active[k] == Announced(t.active, ids, k, blank)
  {
    var ids := Ints(Payload(args));
    ClaimSpec(ids, blank, Diff(map[], t.active));
  }

  /** Every previously active object that was not announced is appended to the dead list,
      once, ascending by id, with the values it last had; entries already in the dead list
      stay. */
  lemma AliveDead<P>(t: Tracker<P>, args: seq<Arg>, blank: P)
    requires AllInts(Payload(args))
    ensures Alive(t, args, blank).dead == t.dead + Pick(t.active, Departed(t.active, Ints(Payload(args))))
  {
    var ids := Ints(Payload(args));
    var left := Claim(ids, blank, Diff(map[], t.active)).unclaimed;
    ClaimLeaves(ids, blank, Diff(map[], t.active));
    var ks := Ordered.Ascending(left.Keys);
    assert ks == Departed(t.active, ids);
    PickFromPart(left, t.active, ks);
  }

  /** The objects an alive message declares dead are not active afterwards: the dead
      entries this call appends and the new active table never share an id. */
  lemma AliveAppendedNotActive<P>(t: Tracker<P>, args: seq<Arg>, blank: P)
    requires Consistent(t)
    requires AllInts(Payload(args))
    ensures var r := Alive(t, args, blank);
            forall i :: |t.dead| <= i < |r.dead| ==> r.dead[i].id !in r.active
  {
    var r, ids := Alive(t, args, blank), Ints(Payload(args));
    AliveKeys(t, args, blank);
    AliveDead(t, args, blank);
    var ks := Departed(t.active, ids);
    forall i | |t.dead| <= i < |r.dead|
      ensures r.dead[i].id !in r.active
    {
      var k := ks[i - |t.dead|];
      assert k in t.active && k !in ids;
      assert r.dead[i] == t.active[k];
    }
  }

  /** The set message once decoded: the addressed object is replaced by its updated version,
      and nothing else changes. An id that is not active is ignored. */
  function Update<P>(t: Tracker<P>, id: int, f: Entity<P> -> Entity<P>): (r: Tracker<P>)
    ensures id !in t.active ==> r == t
    ensures r.dead == t.dead && r.active.Keys == t.active.Keys
    ensures forall k :: k in t.active && k != id ==> r.active[k] == t.active[k]
    ensures id in t.active ==> r.active[id] == f(t.active[id])
  {
    if id in t.active then t.(active := t.active[id := f(t.active[id])]) else t
  }

  /** The frame terminator: the current table and dead list are emitted, then the dead list
      is cleared; the active table is kept. */
  function Fseq<P>(t: Tracker<P>): (r: (Tracker<P>, Frame<P>))
    ensures r.1.active == t.active && r.1.dead == t.dead
    ensures r.0.active == t.active && r.0.dead == []
  {
    (t.(dead := []), Frame(t.active, t.dead))
  }

  /** A second frame terminator with nothing in between reports the same active table and
      no departures, and leaves the tracker as the first one did. */
  lemma FseqTwice<P>(t: Tracker<P>)
    ensures Fseq(Fseq(t).0).1 == Frame(t.active, [])
    ensures Fseq(Fseq(t).0).0 == Fseq(t).0
  {
  }

  /** The tracker's invariant: every active object is stored under its own id, and no tracked
      object, active or dead, is ever Released. */
  predicate Consistent<P>(t: Tracker<P>) {
    && (forall k :: k in t.active ==> t.active[k].id == k && t.active[k].state != Released)
    && NoneReleased(t.dead)
  }

  predicate NoneReleased<P>(es: seq<Entity<P>>) {
    forall i :: 0 <= i < |es| ==> es[i].state != Released
  }

  lemma PickedNoneReleased<P>(t: Tracker<P>, ks: seq<int>)
    requires Consistent(t)
    requires forall i :: 0 <= i < |ks| ==> ks[i] in t.active
    ensures NoneReleased(t.dead + Pick(t.active, ks))
  {
    var es := t.dead + Pick(t.active, ks);
    forall i | 0 <= i < |es|
      ensures es[i].state != Released
    {
      if i >= |t.dead| {
        var k := ks[i - |t.dead|];
        assert k in t.active;
        assert es[i] == t.active[k];
      } else {
        assert es[i] == t.dead[i];
      }
    }
  }

  lemma AlivePreservesConsistent<P>(t: Tracker<P>, args: seq<Arg>, blank: P)
    requires Consistent(t)
    ensures Consistent(Alive(t, args, blank))
  {
    if AllInts(Payload(args)) {
      AliveActiveSound(t, args, blank);
      AliveDead(t, args, blank);
      PickedNoneReleased(t, Departed(t.active, Ints(Payload(args))));
    }
  }

  lemma AliveActiveSound<P>(t: Tracker<P>, args: seq<Arg>, blank: P)
    requires Consistent(t)
    requires AllInts(Payload(args))
    ensures var r := Alive(t, args, blank);
            forall k :: k in r.active ==> r.active[k].id == k && r.active[k].state != Released
  {
    var r := Alive(t, args, blank);
    var ids := Ints(Payload(args));
    AliveValues(t, args, blank);
    forall k | k in r.active
      ensures r.active[k].id == k && r.active[k].state != Released
    {
      assert r.active[k] == Announced(t.active, ids, k, blank);
    }
  }

  lemma UpdatePreservesConsistent<P>(t: Tracker<P>, id: int, f: Entity<P> -> Entity<P>)
    requires Consistent(t)
    requires id in t.active ==> f(t.active[id]).id == id && f(t.active[id]).state != Released
    ensures Consistent(Update(t, id, f))
  {
  }

  lemma FseqPreservesConsistent<P>(t: Tracker<P>)
    requires Consistent(t)
    ensures Consistent(Fseq(t).0)
  {
  }
}
