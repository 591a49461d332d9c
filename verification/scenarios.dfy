/**
  Concrete message sequences run through a cursor tracker, stating what the frame contents
  are after each of them.
 */
module Scenarios {
  import opened Motion
  import opened Osc
  import opened Tracker
  import C = CursorRecord

  type Cursors = Tracker<C.CursorPose>

  /** The alive message announcing ids, applied to a cursor tracker. */
  function Announce(t: Cursors, ids: seq<int>): Cursors {
    Alive(t, [B("alive")] + IntArgs(ids), C.Blank)
  }

  /** The alive lemmas, read for a message built from a list of ids. */
  lemma AnnounceSpec(t: Cursors, ids: seq<int>)
    ensures Announce(t, ids).active.Keys == Members(ids)
    ensures forall k :: k in Announce(t, ids).active ==>
              Announce(t, ids).active[k] == Announced(t.active, ids, k, C.Blank)
    ensures Announce(t, ids).dead == t.dead + Pick(t.active, Departed(t.active, ids))
  {
    var args := [B("alive")] + IntArgs(ids);
    assert Payload(args) == IntArgs(ids);
    AliveKeys(t, args, C.Blank);
    AliveValues(t, args, C.Blank);
    AliveDead(t, args, C.Blank);
  }

  function FirstTracker(): Cursors {
    Announce(Empty(), [1, 2])
  }

  /** Announcing 1 and 2 to an empty tracker makes both active and Pressed, with nothing
      dead; the frame terminator reports exactly that. */
  lemma FirstFrame()
    ensures FirstTracker().active == map[1 := Born(1, C.Blank), 2 := Born(2, C.Blank)]
    ensures Fseq(FirstTracker()).1 == Frame(FirstTracker().active, [])
  {
    var t0: Cursors := Empty();
    AnnounceSpec(t0, [1, 2]);
    DepartedNone(t0.active, [1, 2]);
    var t := FirstTracker();
    assert Members([1, 2]) == {1, 2};
    assert 1 in t.active && 2 in t.active;
  }

  /** The frame after FirstFrame announces only 2. */
  function SecondTracker(): Cursors {
    Announce(Fseq(FirstTracker()).0, [2])
  }

  /** Announcing a single active id keeps just that object, with its values, Stationary. */
  lemma AnnounceOnlyActive(t: Cursors, x: int)
    requires x in t.active
    ensures Announce(t, [x]).active.Keys == {x}
    ensures Announce(t, [x]).active[x] == t.active[x].(state := Stationary)
  {
    AnnounceSpec(t, [x]);
    var one := [x];
    assert one[1..] == [];
    assert Count(one, x) == 1;
    assert Members(one) == {x};
    assert x in Announce(t, one).active;
  }

  /** Announcing only 2 after the first frame keeps 2 with its values, now Stationary. */
  lemma SurvivorStationary()
    ensures SecondTracker().active.Keys == {2}
    ensures SecondTracker().active[2] == Entity(2, Stationary, C.Blank)
  {
    FirstFrame();
    var t1 := Fseq(FirstTracker()).0;
    assert 2 in t1.active && t1.active[2] == Born(2, C.Blank);
    AnnounceOnlyActive(t1, 2);
  }

  /** After 1 and 2 were announced and the frame closed, announcing only 2 puts 1, with its
      last values, in the dead list, which the next frame reports alone before clearing it. */
  lemma DepartureReported()
    ensures Fseq(SecondTracker()).1.dead == [Born(1, C.Blank)]
    ensures Fseq(SecondTracker()).0.dead == []
  {
    FirstFrame();
    var t1 := Fseq(FirstTracker()).0;
    assert t1.active == map[1 := Born(1, C.Blank), 2 := Born(2, C.Blank)] && t1.dead == [];
    AnnounceSpec(t1, [2]);
    DepartedOne(t1.active, [2], 1);
  }

  /** Announcing a single id that is not active yields a fresh Pressed object, alone. */
  lemma AnnounceOnlyNewcomer(t: Cursors, x: int)
    requires x !in t.active
    ensures Announce(t, [x]).active.Keys == {x}
    ensures Announce(t, [x]).active[x] == Born(x, C.Blank)
  {
    AnnounceSpec(t, [x]);
    var one := [x];
    assert Members(one) == {x};
    assert x in Announce(t, one).active;
  }

  /** 1 is announced, then an empty announcement lets it go. */
  function Vanished(): Cursors {
    Announce(Announce(Empty(), [1]), [])
  }

  /** The empty announcement moves 1 to the dead list and leaves nothing active. */
  lemma VanishedState()
    ensures Vanished().active.Keys == {}
    ensures Vanished().dead == [Born(1, C.Blank)]
  {
    var t0: Cursors := Empty();
    var t1 := Announce(t0, [1]);
    AnnounceOnlyNewcomer(t0, 1);
    assert t1.dead == [] by {
      AnnounceSpec(t0, [1]);
      DepartedNone(t0.active, [1]);
    }
    AnnounceSpec(t1, []);
    DepartedOne(t1.active, [], 1);
    assert Members([]) == {};
  }

  /** An object that leaves and comes back before the frame closes is both active (fresh,
      Pressed) and in the dead list: the two are not kept disjoint. */
  lemma ReappearanceIsActiveAndDead()
    ensures var t := Announce(Vanished(), [1]);
            && t.active.Keys == {1} && t.active[1] == Born(1, C.Blank)
            && t.dead == [Born(1, C.Blank)]
  {
    VanishedState();
    AnnounceOnlyNewcomer(Vanished(), 1);
    AnnounceSpec(Vanished(), [1]);
    DepartedNone(Vanished().active, [1]);
  }

  /** An active id announced twice in one message loses its object: the second occurrence
      replaces the Stationary copy with a fresh Pressed one. */
  lemma DuplicateAnnouncementResets(t: Cursors, x: int)
    requires x in t.active
    ensures Announce(t, [x, x]).active.Keys == {x}
    ensures Announce(t, [x, x]).active[x] == Born(x, C.Blank)
  {
    var r := Announce(t, [x, x]);
    AnnounceSpec(t, [x, x]);
    var once, twice := [x], [x, x];
    assert once[1..] == [] && twice[1..] == once;
    assert Count(once, x) == 1;
    assert Count(twice, x) == 2;
    assert Members([x, x]) == {x};
    assert x in r.active;
  }
}
