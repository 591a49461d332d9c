/**
  The set messages of the three classes: argument validation, decoding into an update
  record, and application of the update to the addressed object, field by field in the
  order the handler writes them.
 */
module SetMessages {
  import opened Wrappers
  import opened Motion
  import opened Osc
  import opened Tracker
  import C = CursorRecord
  import T = TokenRecord
  import Bl = BlobRecord

  datatype ArgType = IntArg | FloatArg | BytesArg

  function TypeOf(a: Arg): ArgType {
    match a
    case I(_) => IntArg
    case F(_) => FloatArg
    case B(_) => BytesArg
  }

  /** A set layout: `ints` integer arguments followed by `floats` float arguments. */
  function Layout(ints: nat, floats: nat): (want: seq<ArgType>)
    ensures |want| == ints + floats
    ensures forall j :: 0 <= j < |want| ==> (want[j] == IntArg <==> j < ints)
    ensures forall j :: 0 <= j < |want| ==> (want[j] == FloatArg <==> j >= ints)
  {
    seq(ints, _ => IntArg) + seq(floats, _ => FloatArg)
  }

  /** The argument types each class's set message carries from index 1 on: the session id,
      for tokens the class id, then the float attributes. */
  const CursorLayout: seq<ArgType> := Layout(1, 5)
  const TokenLayout: seq<ArgType> := Layout(2, 8)
  const BlobLayout: seq<ArgType> := Layout(1, 11)

  /** The blob layout the blob set handler reads: one float fewer than the TUIO 1.1 blob
      profile, which carries the area after the height. */
  const BlobLayoutAsWritten: seq<ArgType> := Layout(1, 10)

  /** The result of validating a set message. OutOfRange(i) means the validation reads
      argument i of a shorter list, which the set handler does not guard against. */
  datatype Verdict = Accept | Reject | OutOfRange(index: nat)

  /** The type test of a set handler: the expected types are compared with the arguments
      from index `at` on, one by one, stopping at the first mismatch. */
  function CheckTypes(args: seq<Arg>, want: seq<ArgType>, at: nat): Verdict
    decreases |want|
  {
    if want == [] then Accept
    else if at >= |args| then OutOfRange(at)
    else if TypeOf(args[at]) != want[0] then Reject
    else CheckTypes(args, want[1..], at + 1)
  }

  /** The type test accepts exactly the lists that are long enough and carry the expected
      type at every position. */
  lemma {:induction false} CheckTypesAccept(args: seq<Arg>, want: seq<ArgType>, at: nat)
    requires at <= |args|
    ensures CheckTypes(args, want, at) == Accept <==>
              at + |want| <= |args| && forall j :: 0 <= j < |want| ==> TypeOf(args[at + j]) == want[j]
    decreases |want|
  {
    if want == [] || at >= |args| {
    } else if TypeOf(args[at]) != want[0] {
      assert TypeOf(args[at + 0]) != want[0];
    } else {
      CheckTypesAccept(args, want[1..], at + 1);
      if at + |want| <= |args| {
        var here := forall j :: 0 <= j < |want| ==> TypeOf(args[at + j]) == want[j];
        var later := forall j :: 0 <= j < |want| - 1 ==> TypeOf(args[at + 1 + j]) == want[1..][j];
        if later {
          forall j | 0 <= j < |want|
            ensures TypeOf(args[at + j]) == want[j]
          {
            if j > 0 {
              assert TypeOf(args[at + 1 + (j - 1)]) == want[1..][j - 1];
            }
          }
        }
        if here {
          forall j | 0 <= j < |want| - 1
            ensures TypeOf(args[at + 1 + j]) == want[1..][j]
          {
            assert TypeOf(args[at + (j + 1)]) == want[j + 1];
          }
        }
      }
    }
  }

  /** When the list holds every position the test reads, the test never reads past its end. */
  lemma {:induction false} CheckTypesInRange(args: seq<Arg>, want: seq<ArgType>, at: nat)
    requires at + |want| <= |args|
    ensures !CheckTypes(args, want, at).OutOfRange?
    decreases |want|
  {
    if want != [] && TypeOf(args[at]) == want[0] {
      CheckTypesInRange(args, want[1..], at + 1);
    }
  }

  /** The fewest arguments every set handler asks for before its type test. */
  const MinSetArgs: nat := 7

  /** Validation as the handlers perform it: the count test is `fewer than 7` for every
      class, although the token and blob type tests read up to index 10 and 11. */
  function SetVerdictAsWritten(args: seq<Arg>, want: seq<ArgType>): Verdict {
    if |args| < MinSetArgs then Reject else CheckTypes(args, want, 1)
  }

  /** Corrected validation: the count test asks for every argument the type test reads. */
  function SetVerdict(args: seq<Arg>, want: seq<ArgType>): (v: Verdict)
    ensures !v.OutOfRange?
    ensures v == Accept <==>
              1 + |want| <= |args| && forall j :: 0 <= j < |want| ==> TypeOf(args[1 + j]) == want[j]
  {
    if |args| < 1 + |want| then Reject
    else
      CheckTypesAccept(args, want, 1);
      CheckTypesInRange(args, want, 1);
      CheckTypes(args, want, 1)
  }

  /** Wherever the handlers' own validation stays within the list, the corrected validation
      gives the same verdict: the correction only changes inputs on which the set handler reads
      past the end. */
  lemma CorrectionAgreesWhereDefined(args: seq<Arg>, want: seq<ArgType>)
    requires |want| + 1 >= MinSetArgs
    requires !SetVerdictAsWritten(args, want).OutOfRange?
    ensures SetVerdictAsWritten(args, want) == SetVerdict(args, want)
  {
    if |args| >= MinSetArgs {
      CheckTypesAccept(args, want, 1);
    }
  }

  /** For cursors the handler's count test already covers every position it reads. */
  lemma CursorGuardSuffices(args: seq<Arg>)
    ensures SetVerdictAsWritten(args, CursorLayout) == SetVerdict(args, CursorLayout)
  {
    if |args| >= MinSetArgs {
      CheckTypesInRange(args, CursorLayout, 1);
    }
    CorrectionAgreesWhereDefined(args, CursorLayout);
  }

  /** A seven-argument token set message, well typed as far as it goes, passes the count test
      and makes the type test read argument 7 of a seven-element list. */
  lemma TokenGuardReadsPastEnd()
    ensures var args := [B("set"), I(3), I(0), F(0.5), F(0.5), F(0.0), F(0.0)];
            SetVerdictAsWritten(args, TokenLayout) == OutOfRange(7)
            && SetVerdict(args, TokenLayout) == Reject
  {
  }

  /** The same for a seven-argument blob set message. */
  lemma BlobGuardReadsPastEnd()
    ensures var args := [B("set"), I(3), F(0.5), F(0.5), F(0.0), F(0.1), F(0.1)];
            SetVerdictAsWritten(args, BlobLayoutAsWritten) == OutOfRange(7)
            && SetVerdict(args, BlobLayoutAsWritten) == Reject
  {
  }

  /** What the corrected validation accepts for a layout, position by position: enough
      arguments, integers where the layout has them and floats after. */
  lemma LayoutAccepts(args: seq<Arg>, ints: nat, floats: nat)
    ensures SetVerdict(args, Layout(ints, floats)) == Accept <==>
              && |args| >= 1 + ints + floats
              && (forall j :: 1 <= j <= ints ==> args[j].I?)
              && (forall j :: 1 + ints <= j < 1 + ints + floats ==> args[j].F?)
  {
    var want := Layout(ints, floats);
    if |args| >= 1 + ints + floats {
      if forall j :: 0 <= j < |want| ==> TypeOf(args[1 + j]) == want[j] {
        forall j | 1 <= j < 1 + ints + floats
          ensures j <= ints ==> args[j].I?
          ensures j > ints ==> args[j].F?
        {
          assert TypeOf(args[1 + (j - 1)]) == want[j - 1];
        }
      }
      if (forall j :: 1 <= j <= ints ==> args[j].I?)
         && (forall j :: 1 + ints <= j < 1 + ints + floats ==> args[j].F?) {
        forall j | 0 <= j < |want|
          ensures TypeOf(args[1 + j]) == want[j]
        {
          if j < ints {
            assert args[1 + j].I?;
          } else {
            assert args[1 + j].F?;
          }
        }
      }
    }
  }

  // ----- Cursor -----

  datatype CursorUpdate = CursorUpdate(id: int, x: real, y: real, vx: real, vy: real, acceleration: real)

  /** The set message a sender would write for an update. */
  function EncodeCursorSet(u: CursorUpdate): seq<Arg> {
    [B("set"), I(u.id), F(u.x), F(u.y), F(u.vx), F(u.vy), F(u.acceleration)]
  }

  /** Validates and decodes a cursor set message: id, x, y, vx, vy, acceleration. */
  function ParseCursorSet(args: seq<Arg>): (r: Option<CursorUpdate>)
    ensures r.Some? <==> |args| >= 7 && args[1].I? && forall j :: 2 <= j < 7 ==> args[j].F?
    ensures r.Some? ==> EncodeCursorSet(r.value)[1..] == args[1..7]
  {
    LayoutAccepts(args, 1, 5);
    if SetVerdict(args, CursorLayout) != Accept then None
    else
      Some(CursorUpdate(args[1].i, args[2].f, args[3].f, args[4].f, args[5].f, args[6].f))
  }

  lemma CursorSetRoundTrip(u: CursorUpdate)
    ensures ParseCursorSet(EncodeCursorSet(u)) == Some(u)
  {
  }

  /** The cursor set handler's writes, in order: x, y, vx, vy, acceleration. */
  function ApplyCursor(c: C.Cursor, u: CursorUpdate): (r: C.Cursor)
    ensures r.id == c.id
    ensures r.pose == C.CursorPose(u.x, u.y, u.vx, u.vy, u.acceleration)
    ensures c.state != Stationary ==> r.state == c.state
    ensures c.state == Stationary ==>
              (r.state == Moved <==> !SamePlace(c.pose.x, u.x) || !SamePlace(c.pose.y, u.y))
    ensures r.state == c.state || r.state == Moved
  {
    C.SetAcceleration(C.SetVY(C.SetVX(C.SetY(C.SetX(c, u.x), u.y), u.vx), u.vy), u.acceleration)
  }

  /** The cursor set message: a malformed message, or one for an id that is not active,
      changes nothing; otherwise only the addressed cursor changes. */
  function CursorSet(t: Tracker<C.CursorPose>, args: seq<Arg>): (r: Tracker<C.CursorPose>)
    ensures ParseCursorSet(args).None? ==> r == t
    ensures ParseCursorSet(args).Some? && ParseCursorSet(args).value.id !in t.active ==> r == t
    ensures r.dead == t.dead && r.active.Keys == t.active.Keys
    ensures forall k :: k in t.active && r.active[k] != t.active[k] ==>
              ParseCursorSet(args).Some? && k == ParseCursorSet(args).value.id
    ensures ParseCursorSet(args).Some? && ParseCursorSet(args).value.id in t.active ==>
              var u := ParseCursorSet(args).value;
              r.active[u.id] == ApplyCursor(t.active[u.id], u)
  {
    match ParseCursorSet(args)
    case None => t
    case Some(u) => Update(t, u.id, c => ApplyCursor(c, u))
  }

  // ----- Token -----

  datatype TokenUpdate = TokenUpdate(
    id: int, classId: int, x: real, y: real, angle: real, vx: real, vy: real,
    angularVelocity: real, acceleration: real, angularAcceleration: real)

  function EncodeTokenSet(u: TokenUpdate): seq<Arg> {
    [B("set"), I(u.id), I(u.classId), F(u.x), F(u.y), F(u.angle), F(u.vx), F(u.vy),
     F(u.angularVelocity), F(u.acceleration), F(u.angularAcceleration)]
  }

  /** Validates and decodes a token set message: id, class id, x, y, angle, vx, vy, angular
      velocity, acceleration, angular acceleration. */
  function ParseTokenSet(args: seq<Arg>): (r: Option<TokenUpdate>)
    ensures r.Some? <==>
              |args| >= 11 && args[1].I? && args[2].I? && forall j :: 3 <= j < 11 ==> args[j].F?
    ensures r.Some? ==> EncodeTokenSet(r.value)[1..] == args[1..11]
  {
    LayoutAccepts(args, 2, 8);
    if SetVerdict(args, TokenLayout) != Accept then None
    else
      Some(TokenUpdate(args[1].i, args[2].i, args[3].f, args[4].f, args[5].f, args[6].f,
                       args[7].f, args[8].f, args[9].f, args[10].f))
  }

  lemma TokenSetRoundTrip(u: TokenUpdate)
    ensures ParseTokenSet(EncodeTokenSet(u)) == Some(u)
  {
  }

  /** The token set handler's writes, in order: class id, x, y, vx, vy, acceleration, angle,
      angular velocity, angular acceleration. */
  function ApplyToken(t: T.Token, u: TokenUpdate): (r: T.Token)
    ensures r.id == t.id
    ensures r.pose == T.TokenPose(u.classId, u.x, u.y, FoldAngle(u.angle), u.vx, u.vy,
                                  u.angularVelocity, u.acceleration, u.angularAcceleration)
    ensures t.state != Stationary ==> r.state == t.state
    ensures t.state == Stationary ==>
              (r.state == Moved <==>
                 !SamePlace(t.pose.x, u.x) || !SamePlace(t.pose.y, u.y)
                 || !SamePlace(t.pose.angle, FoldAngle(u.angle)))
    ensures r.state == t.state || r.state == Moved
  {
    var moved := T.SetAcceleration(T.SetVY(T.SetVX(T.SetY(T.SetX(T.SetClassId(t, u.classId), u.x), u.y), u.vx), u.vy), u.acceleration);
    T.SetAngularAcceleration(T.SetAngularVelocity(T.SetAngle(moved, u.angle), u.angularVelocity), u.angularAcceleration)
  }

  /** The token set message, with the corrected count test. */
  function TokenSet(t: Tracker<T.TokenPose>, args: seq<Arg>): (r: Tracker<T.TokenPose>)
    ensures ParseTokenSet(args).None? ==> r == t
    ensures ParseTokenSet(args).Some? && ParseTokenSet(args).value.id !in t.active ==> r == t
    ensures r.dead == t.dead && r.active.Keys == t.active.Keys
    ensures forall k :: k in t.active && r.active[k] != t.active[k] ==>
              ParseTokenSet(args).Some? && k == ParseTokenSet(args).value.id
    ensures ParseTokenSet(args).Some? && ParseTokenSet(args).value.id in t.active ==>
              var u := ParseTokenSet(args).value;
              r.active[u.id] == ApplyToken(t.active[u.id], u)
  {
    match ParseTokenSet(args)
    case None => t
    case Some(u) => Update(t, u.id, e => ApplyToken(e, u))
  }

  // ----- Blob -----

  datatype BlobUpdate = BlobUpdate(
    id: int, x: real, y: real, angle: real, width: real, height: real, area: real,
    vx: real, vy: real, vr: real, acceleration: real, rotationAccel: real)

  /** The set message a sender following the TUIO 1.1 blob profile writes for an update:
      session id, x, y, angle, width, height, area, vx, vy, rotation velocity, acceleration,
      rotation acceleration. */
  function EncodeBlobSet(u: BlobUpdate): seq<Arg> {
    [B("set"), I(u.id), F(u.x), F(u.y), F(u.angle), F(u.width), F(u.height), F(u.area),
     F(u.vx), F(u.vy), F(u.vr), F(u.acceleration), F(u.rotationAccel)]
  }

  /** Validates and decodes a blob set message in the profile's layout, the area at index 7. */
  function ParseBlobSet(args: seq<Arg>): (r: Option<BlobUpdate>)
    ensures r.Some? <==> |args| >= 13 && args[1].I? && forall j :: 2 <= j < 13 ==> args[j].F?
    ensures r.Some? ==> EncodeBlobSet(r.value)[1..] == args[1..13]
  {
    LayoutAccepts(args, 1, 11);
    if SetVerdict(args, BlobLayout) != Accept then None
    else
      Some(BlobUpdate(args[1].i, args[2].f, args[3].f, args[4].f, args[5].f, args[6].f,
                      args[7].f, args[8].f, args[9].f, args[10].f, args[11].f, args[12].f))
  }

  lemma BlobSetRoundTrip(u: BlobUpdate)
    ensures ParseBlobSet(EncodeBlobSet(u)) == Some(u)
  {
  }

  /** The blob set handler's writes in its order (x, y, angle, width, height, vx, vy, rotation
      velocity, acceleration, rotation acceleration), with the area written after the height. */
  function ApplyBlob(b: Bl.Blob, u: BlobUpdate): (r: Bl.Blob)
    ensures r.id == b.id
    ensures r.pose == Bl.BlobPose(u.x, u.y, FoldAngle(u.angle), u.width, u.height, u.area,
                                  u.vx, u.vy, u.vr, u.acceleration, u.rotationAccel)
    ensures b.state != Stationary ==> r.state == b.state
    ensures b.state == Stationary ==>
              (r.state == Moved <==>
                 !SamePlace(b.pose.x, u.x) || !SamePlace(b.pose.y, u.y)
                 || !SamePlace(b.pose.angle, FoldAngle(u.angle)))
    ensures r.state == b.state || r.state == Moved
  {
    var placed := Bl.SetAngle(Bl.SetY(Bl.SetX(b, u.x), u.y), u.angle);
    var sized := Bl.SetArea(Bl.SetHeight(Bl.SetWidth(placed, u.width), u.height), u.area);
    Bl.SetRotationAcceleration(Bl.SetAcceleration(Bl.SetVR(Bl.SetVY(Bl.SetVX(sized, u.vx), u.vy), u.vr), u.acceleration), u.rotationAccel)
  }

  /** The blob set message in the TUIO 1.1 profile layout, the area read at index 7, with the
      corrected count test. The dispatcher runs BlobSetAsWritten instead. */
  function BlobSet(t: Tracker<Bl.BlobPose>, args: seq<Arg>): (r: Tracker<Bl.BlobPose>)
    ensures ParseBlobSet(args).None? ==> r == t
    ensures ParseBlobSet(args).Some? && ParseBlobSet(args).value.id !in t.active ==> r == t
    ensures r.dead == t.dead && r.active.Keys == t.active.Keys
    ensures forall k :: k in t.active && r.active[k] != t.active[k] ==>
              ParseBlobSet(args).Some? && k == ParseBlobSet(args).value.id
    ensures ParseBlobSet(args).Some? && ParseBlobSet(args).value.id in t.active ==>
              var u := ParseBlobSet(args).value;
              r.active[u.id] == ApplyBlob(t.active[u.id], u)
  {
    match ParseBlobSet(args)
    case None => t
    case Some(u) => Update(t, u.id, e => ApplyBlob(e, u))
  }

  /** A profile blob set message for an active blob stores every attribute from its own
      argument, the area included; no other blob changes. */
  lemma BlobSetStoresProfile(t: Tracker<Bl.BlobPose>, u: BlobUpdate)
    requires u.id in t.active
    ensures var r := BlobSet(t, EncodeBlobSet(u));
            && r.active[u.id].pose == Bl.BlobPose(u.x, u.y, FoldAngle(u.angle), u.width, u.height,
                                                  u.area, u.vx, u.vy, u.vr, u.acceleration,
                                                  u.rotationAccel)
            && forall k :: k in t.active && k != u.id ==> r.active[k] == t.active[k]
  {
    BlobSetRoundTrip(u);
  }

  /** The handler's own blob layout, position by position: the session id at index 1 and ten
      floats at 2 to 11. */
  predicate BlobArgsAsWritten(args: seq<Arg>) {
    |args| >= 12 && args[1].I? && forall j :: 2 <= j < 12 ==> args[j].F?
  }

  /** The blob set handler's writes as it reads the arguments: x, y, angle, width and height
      from indices 2 to 6, then indices 7 to 11 as vx, vy, rotation velocity, acceleration and
      rotation acceleration. The area is not written. */
  function ApplyBlobAsWritten(b: Bl.Blob, args: seq<Arg>): (r: Bl.Blob)
    requires BlobArgsAsWritten(args)
    ensures r.id == b.id
    ensures r.pose == Bl.BlobPose(args[2].f, args[3].f, FoldAngle(args[4].f), args[5].f, args[6].f,
                                  b.pose.area, args[7].f, args[8].f, args[9].f, args[10].f,
                                  args[11].f)
    ensures b.state != Stationary ==> r.state == b.state
    ensures b.state == Stationary ==>
              (r.state == Moved <==>
                 !SamePlace(b.pose.x, args[2].f) || !SamePlace(b.pose.y, args[3].f)
                 || !SamePlace(b.pose.angle, FoldAngle(args[4].f)))
    ensures r.state == b.state || r.state == Moved
  {
    ApplyBlob(b, BlobUpdate(args[1].i, args[2].f, args[3].f, args[4].f, args[5].f, args[6].f,
                            b.pose.area, args[7].f, args[8].f, args[9].f, args[10].f, args[11].f))
  }

  /** The blob set message as the handler reads it, which is what the dispatcher runs. A
      message not in the handler's layout, or one for an id that is not active, changes
      nothing; otherwise only the addressed blob changes. The count test is the corrected one. */
  function BlobSetAsWritten(t: Tracker<Bl.BlobPose>, args: seq<Arg>): (r: Tracker<Bl.BlobPose>)
    ensures BlobArgsAsWritten(args) <==> SetVerdict(args, BlobLayoutAsWritten) == Accept
    ensures !BlobArgsAsWritten(args) ==> r == t
    ensures BlobArgsAsWritten(args) && args[1].i !in t.active ==> r == t
    ensures r.dead == t.dead && r.active.Keys == t.active.Keys
    ensures forall k :: k in t.active && r.active[k] != t.active[k] ==>
              BlobArgsAsWritten(args) && k == args[1].i
    ensures BlobArgsAsWritten(args) && args[1].i in t.active ==>
              r.active[args[1].i] == ApplyBlobAsWritten(t.active[args[1].i], args)
  {
    LayoutAccepts(args, 1, 10);
    if SetVerdict(args, BlobLayoutAsWritten) != Accept then t
    else Update(t, args[1].i, e => ApplyBlobAsWritten(e, args))
  }

  /** Given a profile blob set message, the handler as written stores the area as vx, vx as
      vy, vy as the rotation velocity, the rotation velocity as the acceleration and the
      acceleration as the rotation acceleration; the rotation acceleration is dropped and the
      area is kept as it was. */
  lemma BlobFieldsShiftAsWritten(t: Tracker<Bl.BlobPose>, u: BlobUpdate)
    requires u.id in t.active
    ensures var b := BlobSetAsWritten(t, EncodeBlobSet(u)).active[u.id];
            && b.pose.vx == u.area && b.pose.vy == u.vx && b.pose.vr == u.vy
            && b.pose.acceleration == u.vr && b.pose.rotationAccel == u.acceleration
            && b.pose.area == t.active[u.id].pose.area
  {
    LayoutAccepts(EncodeBlobSet(u), 1, 10);
  }

  /** A concrete profile message on which the two differ: a blob of area 0.25 at rest. */
  lemma BlobAreaBecomesVelocity(t: Tracker<Bl.BlobPose>)
    requires 3 in t.active && t.active[3].pose.area == 0.0
    ensures var args := [B("set"), I(3), F(0.5), F(0.5), F(0.0), F(0.1), F(0.1), F(0.25),
                         F(0.0), F(0.0), F(0.0), F(0.0), F(0.0)];
            && BlobSet(t, args).active[3].pose.area == 0.25
            && BlobSet(t, args).active[3].pose.vx == 0.0
            && BlobSetAsWritten(t, args).active[3].pose.area == 0.0
            && BlobSetAsWritten(t, args).active[3].pose.vx == 0.25
  {
    var u := BlobUpdate(3, 0.5, 0.5, 0.0, 0.1, 0.1, 0.25, 0.0, 0.0, 0.0, 0.0, 0.0);
    assert EncodeBlobSet(u) == [B("set"), I(3), F(0.5), F(0.5), F(0.0), F(0.1), F(0.1), F(0.25),
                                F(0.0), F(0.0), F(0.0), F(0.0), F(0.0)];
    BlobSetStoresProfile(t, u);
    BlobFieldsShiftAsWritten(t, u);
  }

  // ----- The tracker invariant -----

  lemma CursorSetPreservesConsistent(t: Tracker<C.CursorPose>, args: seq<Arg>)
    requires Consistent(t)
    ensures Consistent(CursorSet(t, args))
  {
    if ParseCursorSet(args).Some? {
      var u := ParseCursorSet(args).value;
      UpdatePreservesConsistent(t, u.id, c => ApplyCursor(c, u));
    }
  }

  lemma TokenSetPreservesConsistent(t: Tracker<T.TokenPose>, args: seq<Arg>)
    requires Consistent(t)
    ensures Consistent(TokenSet(t, args))
  {
    if ParseTokenSet(args).Some? {
      var u := ParseTokenSet(args).value;
      UpdatePreservesConsistent(t, u.id, e => ApplyToken(e, u));
    }
  }

  lemma BlobSetAsWrittenPreservesConsistent(t: Tracker<Bl.BlobPose>, args: seq<Arg>)
    requires Consistent(t)
    ensures Consistent(BlobSetAsWritten(t, args))
  {
    if BlobArgsAsWritten(args) {
      UpdatePreservesConsistent(t, args[1].i, e => ApplyBlobAsWritten(e, args));
    }
  }

  lemma BlobSetPreservesConsistent(t: Tracker<Bl.BlobPose>, args: seq<Arg>)
    requires Consistent(t)
    ensures Consistent(BlobSet(t, args))
  {
    if ParseBlobSet(args).Some? {
      var u := ParseBlobSet(args).value;
      UpdatePreservesConsistent(t, u.id, e => ApplyBlob(e, u));
    }
  }
}
