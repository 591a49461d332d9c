# TUIO 1.1 state tracker, modelled in Dafny

`QTuioHandler` follows the TUIO 1.1 protocol. It receives decoded OSC messages and tracks three classes of objects:

- cursors (`/tuio/2Dcur`);
- tokens, the fiducial markers (`/tuio/2Dobj`);
- blobs (`/tuio/2Dblb`).

For each class it keeps two things:

- an *active* table from session id to object;
- a *dead* list of objects that have left since the last frame.

Each message is one of four types:

- `alive` rebuilds the active table from the announced ids.
- `set` validates one object's attributes and writes them into that object.
- `fseq` closes the frame: it reports the table and the dead list, then clears the dead list.
- `source` is only checked.

The blob record `QTuioBlob` applies two rules when a coordinate is written:

- A Stationary object whose x, y or angle really changed becomes Moved.
- An angle above pi has 2 pi subtracted.

The Dafny modules follow that structure:

- `Motion` (motion.dfy) holds what every class shares:
  - the entity: a session id, a motion state and a class-specific pose;
  - `qFuzzyCompare`, read over exact reals;
  - the motion rule;
  - the angle fold.
- `BlobRecord`, `CursorRecord` and `TokenRecord` hold the three records and their setters.
- `Osc` holds decoded messages. Each argument is an integer, a float or a byte array.
- `Ordered` lists a set of ids in ascending order. This is the order in which a `QMap` is walked.
- `Tracker` is one tracker, generic over the pose. It holds the alive pass, the addressed update, the frame terminator and the tracker invariant.
- `SetMessages` covers the set messages of the three classes:
  - argument validation, both as written and corrected;
  - decoding, with an encoder as its partner;
  - for blobs, both the handler's own layout, which the dispatcher runs, and the TUIO 1.1 layout with the area (see "## Findings");
  - application of the update.
- `Batches` processes a datagram's messages in order. Each message either continues with a new state (and perhaps an event) or stops the rest of the datagram.
- `Handler` is the dispatcher. It routes by address pattern and message type, and a frame terminator returns its event as a value.
- `Scenarios` runs short message sequences through a cursor tracker.

## Model

| member | source | states |
|---|---|---|
| `Motion.Relocate` | src/qtuioblob_p.h:28-44 | A coordinate write stores the new value and keeps the id. A non-Stationary state is kept (Pressed stays Pressed). A Stationary state becomes Moved exactly when the old and new values, shifted by 2, are not fuzzy-equal. |
| `Motion.SamePlaceReflexive` | src/qtuioblob_p.h:29-31 | Writing the value already stored is never reported as motion. |
| `Motion.SamePlaceSymmetric` | src/qtuioblob_p.h:29-31 | The motion test does not depend on which of the two values is the stored one. |
| `Motion.DistantCoordinatesDiffer` | src/qtuioblob_p.h:29-31 | On the normalised plane [0, 1], coordinates 1e-11 or more apart always count as a move. |
| `Motion.FoldAngleRange` | src/qtuioblob_p.h:57-60 | Every angle in (-pi, 3 pi], including the protocol's [0, 2 pi), is stored in (-pi, pi]. |
| `Motion.FoldAngleKeepsSmallAngles` | src/qtuioblob_p.h:57-60 | Angles at or below pi, including values below -pi, are stored unchanged. |
| `Motion.FoldAngleFoldsOnce` | src/qtuioblob_p.h:59-60 | The fold is applied once: 4 pi is stored as 2 pi, which lies outside (-pi, pi]. |
| `Motion.FoldAngleIdempotent` | src/qtuioblob_p.h:57-60 | For angles up to 3 pi, folding an already folded angle changes nothing. |
| `BlobRecord.NewBlob` | src/qtuioblob_p.h:11-24 | A constructed blob has the given id and every attribute zero. |
| `BlobRecord.DefaultBlobId` | src/qtuioblob_p.h:11 | A blob constructed without an id gets id -1. |
| `BlobRecord.SetX` | src/qtuioblob_p.h:28-34 | x is overwritten and id is kept. The state changes only from Stationary to Moved, and only when x really changed. |
| `BlobRecord.SetY` | src/qtuioblob_p.h:37-44 | As for x, for y. |
| `BlobRecord.SetAngle` | src/qtuioblob_p.h:57-66 | An angle above pi is stored minus 2 pi; any other angle is stored as given. Motion is judged against the folded value. |
| `BlobRecord.PlainSettersAreFields` | src/qtuioblob_p.h:48-85 | Each plain setter obeys these laws: its getter returns the last value set, setting the current value changes nothing, and a second set overrides the first. Each keeps the id, the state and every other attribute of the pose. These setters are vx, vy, acceleration, width, height, area, vr and rotation acceleration. |
| `BlobRecord.SettersKeepId` | src/qtuioblob_p.h:11-85 | No setter changes the id the blob was constructed with. |
| `BlobRecord.RewritingCoordinatesChangesNothing` | src/qtuioblob_p.h:28-66 | Rewriting the stored x, y or a normalised angle leaves the blob identical. |
| `BlobRecord.CoordinateSettersIdempotent` | src/qtuioblob_p.h:28-66 | Setting x or y twice to the same value equals setting it once. The same holds for angles up to 3 pi. |
| `BlobRecord.MotionIsSticky` | src/qtuioblob_p.h:28-66 | For every blob and value, x, y and angle setters keep a Moved blob Moved, and none of them produces Stationary from another state. |
| `BlobRecord.MovingBackStaysMoved` | src/qtuioblob_p.h:28-34 | Take a Stationary blob. Moving it away and back leaves it Moved. Writing its own value leaves it Stationary. |
| `CursorRecord.NewCursor` | src/qtuiohandler.cpp:174-176 | A cursor is constructed from its id. Its zero attributes and Released start state are assumptions (see "## Left out"). |
| `Ordered.Ascending` | src/qtuiohandler.cpp:187-198 | Walking the leftover table lists each id once, in increasing order. |
| `Tracker.ClaimSpec` | src/qtuiohandler.cpp:165-184 | Over the left-to-right pass, the new table's keys are the announced ids, and what remains of the old table is exactly the unannounced part. Each announced id holds the object `Announced` describes. |
| `Tracker.Departed` | src/qtuiohandler.cpp:186-198 | The ids declared dead are exactly the previously active ids that were not announced, in increasing order. |
| `Tracker.Alive` | src/qtuiohandler.cpp:165-169 | An alive message with a non-integer argument at any position from 1 on changes neither the table nor the dead list. In every case the dead list is only appended to. |
| `Tracker.AliveKeys` | src/qtuiohandler.cpp:162-200 | After a well-formed alive message, the active table's keys are exactly the announced ids. |
| `Tracker.AliveValues` | src/qtuiohandler.cpp:172-183 | A new id gets a fresh Pressed object with default attributes. A previously active id announced once keeps every attribute and becomes Stationary. |
| `Tracker.AliveDead` | src/qtuiohandler.cpp:186-198 | Every previously active object that was not announced is appended to the dead list exactly once, ascending by id, with its last values. Earlier dead entries stay. |
| `Tracker.AliveAppendedNotActive` | src/qtuiohandler.cpp:186-200 | No entry appended by an alive message has an id in the new active table. |
| `Tracker.Update` | src/qtuiohandler.cpp:229-243 | A set for an id that is not active changes nothing. Otherwise only the addressed object changes, and the dead list and the key set are unchanged. |
| `Tracker.Fseq` | src/qtuiohandler.cpp:247-252 | The frame reports the current table and dead list. Afterwards the dead list is empty and the table is unchanged. |
| `Tracker.FseqTwice` | src/qtuiohandler.cpp:247-252 | A repeated frame terminator reports the same table with no departures, and changes nothing more. |
| `Tracker.AlivePreservesConsistent` | src/qtuiohandler.cpp:152-201 | Alive keeps the invariant: each active object sits under its own id, and nothing tracked is Released. |
| `Tracker.UpdatePreservesConsistent` | src/qtuiohandler.cpp:229-243 | An update that keeps the object's id and never sets Released keeps the invariant. |
| `Tracker.FseqPreservesConsistent` | src/qtuiohandler.cpp:247-252 | The frame terminator keeps the invariant. |
| `SetMessages.CheckTypesAccept` | src/qtuiohandler.cpp:211-220 | The type test accepts exactly the lists that are long enough and carry the expected type at each position. |
| `SetMessages.CheckTypesInRange` | src/qtuiohandler.cpp:211-220 | When the list covers every position the type test reads, the test never reads past the end. |
| `SetMessages.SetVerdict` | src/qtuiohandler.cpp:206-220 | The corrected validation never reads past the end. It accepts exactly the lists with every argument of the layout, each of the expected type. |
| `SetMessages.LayoutAccepts` | src/qtuiohandler.cpp:327-339 | For a layout of integers followed by floats, acceptance means: enough arguments, integers at the integer positions, and floats after them. |
| `SetMessages.CorrectionAgreesWhereDefined` | src/qtuiohandler.cpp:322-339 | Wherever the as-written validation stays in bounds, the corrected validation gives the same verdict. |
| `SetMessages.CursorGuardSuffices` | src/qtuiohandler.cpp:206-220 | For cursors, the handler's own count test already covers every position read, so the two validations agree on every input. |
| `SetMessages.TokenGuardReadsPastEnd` | src/qtuiohandler.cpp:322-336 | A seven-argument token set passes the count test, and its type test then reads argument 7. |
| `SetMessages.BlobGuardReadsPastEnd` | src/qtuiohandler.cpp:438-453 | A seven-argument blob set passes the count test, and its type test then reads argument 7. |
| `SetMessages.ParseCursorSet` | src/qtuiohandler.cpp:205-227 | A cursor set decodes exactly when it has at least 7 arguments: an integer at 1 and floats at 2 to 6. Re-encoding the result reproduces those arguments. |
| `SetMessages.CursorSetRoundTrip` | src/qtuiohandler.cpp:222-227 | Decoding an encoded cursor update gives back the update. |
| `SetMessages.ApplyCursor` | src/qtuiohandler.cpp:238-243 | A cursor set writes x, y, vx, vy and acceleration and keeps the id. A Stationary cursor becomes Moved exactly when x or y really changed. |
| `SetMessages.CursorSet` | src/qtuiohandler.cpp:203-244 | A malformed message, or one for an inactive id, changes nothing. Otherwise only the addressed cursor changes, and the dead list and key set stay. |
| `SetMessages.ParseTokenSet` | src/qtuiohandler.cpp:321-350 | A token set decodes exactly when it has 11 arguments or more: integers at 1 and 2 and floats at 3 to 10. Re-encoding the result reproduces those arguments. |
| `SetMessages.TokenSetRoundTrip` | src/qtuiohandler.cpp:341-350 | Decoding an encoded token update gives back the update. |
| `SetMessages.ApplyToken` | src/qtuiohandler.cpp:358-367 | A token set writes the class id, position, folded angle and rates. A Stationary token becomes Moved exactly when x, y or the folded angle really changed. |
| `SetMessages.TokenSet` | src/qtuiohandler.cpp:319-368 | A malformed message, or one for an inactive id, changes nothing. Otherwise only the addressed token changes. |
| `SetMessages.ParseBlobSet` | src/qtuiohandler.cpp:437-468 | Corrected layout only, not used by the dispatcher (see "## Findings"). A blob set decodes exactly when it has 13 arguments or more: an integer at 1 and floats at 2 to 12, with the area at 7. Re-encoding the result reproduces those arguments. |
| `SetMessages.BlobSetRoundTrip` | src/qtuiohandler.cpp:458-468 | Decoding an encoded blob update gives back the update. |
| `SetMessages.ApplyBlob` | src/qtuiohandler.cpp:476-486 | A blob set writes position, folded angle, size, the area and the rates, each from its own field of the update. A Stationary blob becomes Moved exactly when x, y or the folded angle really changed. |
| `SetMessages.BlobSet` | src/qtuiohandler.cpp:434-487 | Corrected layout only, not used by the dispatcher. A malformed message, or one for an inactive id, changes nothing. Otherwise only the addressed blob changes, as `ApplyBlob` states. |
| `SetMessages.BlobSetStoresProfile` | src/qtuiohandler.cpp:458-486 | Corrected behaviour: a TUIO 1.1 blob set for an active blob stores every attribute from its own argument, the area included, and no other blob changes. |
| `SetMessages.ApplyBlobAsWritten` | src/qtuiohandler.cpp:458-486 | The blob the handler stores: x and y from indices 2 and 3, the folded angle from 4, width and height from 5 and 6, the area kept, and indices 7 to 11 as vx, vy, rotation velocity, acceleration and rotation acceleration. A Stationary blob becomes Moved exactly when x, y or the folded angle really changed. Any other state is kept. |
| `SetMessages.BlobSetAsWritten` | src/qtuiohandler.cpp:434-487 | The blob set the dispatcher runs, in the handler's own layout: an integer at 1 and floats at 2 to 11. A message not in that layout, or one for an inactive id, changes nothing. Otherwise only the addressed blob changes, and it becomes what `ApplyBlobAsWritten` states. |
| `SetMessages.BlobFieldsShiftAsWritten` | src/qtuiohandler.cpp:464-486 | On a TUIO 1.1 blob set, the handler as written stores the area as vx, vx as vy, vy as the rotation velocity, the rotation velocity as the acceleration and the acceleration as the rotation acceleration. It drops the rotation acceleration and keeps the old area. |
| `SetMessages.BlobAreaBecomesVelocity` | src/qtuiohandler.cpp:464-486 | On one concrete message with area 0.25, the corrected handler stores area 0.25 and vx 0. The handler as written stores area 0 and vx 0.25. |
| `SetMessages.CursorSetPreservesConsistent` | src/qtuiohandler.cpp:229-243 | A cursor set keeps the tracker invariant. |
| `SetMessages.TokenSetPreservesConsistent` | src/qtuiohandler.cpp:352-367 | A token set keeps the tracker invariant. |
| `SetMessages.BlobSetAsWrittenPreservesConsistent` | src/qtuiohandler.cpp:470-486 | The blob set the dispatcher runs keeps the tracker invariant. |
| `SetMessages.BlobSetPreservesConsistent` | src/qtuiohandler.cpp:470-486 | The corrected blob set keeps the tracker invariant too. |
| `Batches.Run` | src/qtuiohandler.cpp:66-135 | A datagram yields at most one event per message. An empty datagram changes nothing. Only a non-empty datagram can stop. |
| `Batches.RunOne` | src/qtuiohandler.cpp:66-135 | A one-message datagram either stops with the state unchanged and no events, or carries that message's new state and its event, if any. |
| `Batches.RunExtend` | src/qtuiohandler.cpp:66-135 | One more message after a datagram prefix that did not stop is applied to the state the prefix reached, and its event comes after the prefix's events. |
| `Batches.RunAppend` | src/qtuiohandler.cpp:66-135 | A datagram that runs to completion can be split anywhere: running a ++ b means running a, then running b from the state a left. |
| `Batches.StopsAtFirstBad` | src/qtuiohandler.cpp:66-135 | A stopping message ends the datagram: the messages before it are applied and none after it. |
| `Batches.RunPreserves` | src/qtuiohandler.cpp:66-135 | A property that every continuing message keeps also holds after the whole datagram. |
| `Handler.ClassOf` | src/qtuiohandler.cpp:67-131 | The three address patterns map to the three classes. Every other pattern is unknown. |
| `Handler.KindOf` | src/qtuiohandler.cpp:75-87 | Only a byte-array tag reading source, alive, set or fseq names a message type. |
| `Handler.ClassStep` | src/qtuiohandler.cpp:76-87 | Alive runs the alive pass with the class's blank record. Set runs the class's set handler. Only fseq produces a frame, and that frame is the table and dead list from before the message. A source message changes nothing. |
| `Handler.Step` | src/qtuiohandler.cpp:66-135 | A message stops the datagram exactly when its pattern is unknown, it has no arguments, or its type is unknown. It emits an event exactly when it is fseq, and the event is of its own class. The other classes' trackers are untouched. |
| `Handler.BornIsConstructedPressed` | src/qtuiohandler.cpp:174-175 | The object created for a new id is the constructed record with state Pressed. |
| `Handler.BatchStopsAtFirstBad` | src/qtuiohandler.cpp:70-73 | The first message with no arguments, an unknown type or an unknown pattern ends the datagram, and later messages are not applied. |
| `Handler.SourceNeverMutates` | src/qtuiohandler.cpp:138-150 | A source message changes no tracker and emits nothing, whether or not it is well formed. |
| `Handler.CursorMessages` | src/qtuiohandler.cpp:66-87 | On the cursor pattern, alive runs the alive pass with a blank cursor and set runs the cursor set handler. Fseq emits a cursor frame with the table and dead list, then clears only the dead list. The token and blob trackers are kept in every case. |
| `Handler.TokenMessages` | src/qtuiohandler.cpp:88-107 | The same routing on the token pattern, with a blank token, the token set handler and a token frame. |
| `Handler.BlobMessages` | src/qtuiohandler.cpp:108-128 | The same routing on the blob pattern, with a blank blob, the blob set handler in its own layout (`SetMessages.BlobSetAsWritten`) and a blob frame. |
| `Handler.ClassStepPreservesConsistent` | src/qtuiohandler.cpp:76-87 | Each message type keeps a tracker consistent, provided its set handler does. |
| `Handler.StepPreservesConsistent` | src/qtuiohandler.cpp:66-135 | Every message keeps all three trackers consistent. |
| `Handler.InitialConsistent` | src/qtuiohandler.cpp:66-135 | The handler's starting state, with every table empty, is consistent. |
| `Handler.BatchPreservesConsistent` | src/qtuiohandler.cpp:66-135 | A whole datagram keeps all three trackers consistent, however it ends. |
| `Scenarios.AnnounceOnlyNewcomer` | src/qtuiohandler.cpp:172-176 | Announcing one id that is not active leaves just that id, as a fresh Pressed cursor. |
| `Scenarios.AnnounceOnlyActive` | src/qtuiohandler.cpp:177-183 | Announcing one active id keeps just that cursor, with its values, now Stationary. |
| `Scenarios.FirstFrame` | src/qtuiohandler.cpp:172-176 | Announcing 1 and 2 to an empty tracker creates two Pressed cursors and no departures. |
| `Scenarios.SurvivorStationary` | src/qtuiohandler.cpp:177-183 | In the next frame, announcing only 2 keeps 2 as Stationary. |
| `Scenarios.DepartureReported` | src/qtuiohandler.cpp:186-198 | That same announcement reports cursor 1, with its last values, as the only departure of the frame. Afterwards the dead list is empty. |
| `Scenarios.VanishedState` | src/qtuiohandler.cpp:186-200 | An empty announcement moves the only active cursor to the dead list. |
| `Scenarios.ReappearanceIsActiveAndDead` | src/qtuiohandler.cpp:172-198 | A cursor that leaves and returns within one frame is both active (fresh, Pressed) and dead. |
| `Scenarios.DuplicateAnnouncementResets` | src/qtuiohandler.cpp:172-183 | An active id announced twice in one message ends up as a fresh Pressed cursor. |

## Left out

- UDP transport and OSC datagram decoding (`UdpClient`, `QOscBundle`, `QOscMessage`) are outside this model. A datagram arrives as the list of its decoded messages. An undecodable datagram is one the handler never sees.
- The Qt signals `cursorEvent`, `tokenEvent` and `blobEvent` are not modelled as signals. Each becomes an `Event` value returned by the step.
- Warning and debug logging is not modelled. It has no effect on state.
- `QTuioCursor` and `QTuioToken` (src/qtuiocursor_p.h and src/qtuiotoken_p.h) are not part of this model. Their records carry only the fields the handler writes. Their x, y and angle setters are assumed to follow the blob's rules.
- Floating-point rounding is not modelled: `float` and `double` are read as exact reals. `qFuzzyCompare` keeps its formula (difference times 10^12 against the smaller magnitude) over those reals.
- The blob's state is uninitialised after construction (src/qtuioblob_p.h:11-24). The model gives it the value Released. The tracker always overwrites it with Pressed before storing the object, so it is never observed.
- `CursorRecord.NewCursor` and `TokenRecord.NewToken`: the cursor and token constructors are not part of this model. Their every attribute is assumed to start at zero, including the token's class id, and their state is assumed to start as Released. The handler only shows `QTuioCursor cursor(cursor_id)` (src/qtuiohandler.cpp:174) and `QTuioToken token(session_id)` (src/qtuiohandler.cpp:290).
- Session ids are unbounded integers. A sender cannot produce an id outside 32 bits, so wrap-around is not modelled.
- The blob set handler reads eleven values after the tag, with no area, and the dispatcher model does the same (`SetMessages.BlobSetAsWritten`). The TUIO 1.1 blob profile (`set s x y a w h f X Y A m r`) carries the area `f` at index 7. So a profile message has its area stored as vx, and each later value lands one attribute further on. `SetMessages.BlobSet` reads the profile layout instead, and stands only as the corrected half of the second "## Findings" row.
- `source` validation only decides whether a warning is logged. The model checks nothing for it and changes no state, because the validation has no other effect.
- Six behaviours of the code are easy to miss; the model follows the code in each:
  - The angle is folded once, so values above 3 pi stay above pi, although a fold is usually read as normalising into (-pi, pi] (`Motion.FoldAngleFoldsOnce`).
  - Dead entries keep their last state. The handler never gives them the Released state, although the motion states include one for objects that have left.
  - The active table and the dead list are not kept disjoint. An id that leaves and returns within one frame is both active and dead (`Scenarios.ReappearanceIsActiveAndDead`).
  - Some messages end the whole datagram: a message with no arguments, an unknown message type or an unknown address pattern. The `return` at src/qtuiohandler.cpp:72, 86, 92, 106, 113, 127 and 133 drops every later message, a later `fseq` included (`Handler.BatchStopsAtFirstBad`). The handler's warnings say only that the one message is ignored.
  - A set with a changed position does not make a freshly created object Moved. The motion rule applies only to a Stationary object, so a Pressed object stays Pressed (src/qtuioblob_p.h:29, `Motion.Relocate`).
  - The motion tolerance is `qFuzzyCompare`'s relative bound, with the difference times 10^12 against the smaller magnitude after adding 2. It is not a small absolute epsilon (`Motion.SamePlace`).

## Findings

| source | as written | input that shows it | evidently intended | confidence | as-written member | corrected member |
|---|---|---|---|---|---|---|
| src/qtuiohandler.cpp:322-336 | The token set handler (and likewise the blob set handler, src/qtuiohandler.cpp:438-453) rejects only lists with fewer than 7 arguments. The type tests then read indices up to 10 (token) and 11 (blob). | `set 3 0 0.5 0.5 0.0 0.0` on `/tuio/2Dobj`: seven arguments, each well typed, after which index 7 is read. Similarly `set 3 0.5 0.5 0.0 0.1 0.1` on `/tuio/2Dblb`. | Reject any list with fewer arguments than the type test reads: 11 for tokens and 12 for blobs (13 in the TUIO 1.1 blob layout of the next row, which `SetMessages.BlobSet` reads). | not executed | `SetMessages.SetVerdictAsWritten` (shown by `SetMessages.TokenGuardReadsPastEnd` and `SetMessages.BlobGuardReadsPastEnd`) | `SetMessages.SetVerdict` |
| src/qtuiohandler.cpp:458-486 | The blob set handler reads eleven values after the tag: id, x, y, angle, width, height, then index 7 as vx and 8 to 11 as vy, rotation velocity, acceleration and rotation acceleration. It never calls `setArea`. The TUIO 1.1 blob profile is `set s x y a w h f X Y A m r`, with the area `f` at index 7. | `set 3 0.5 0.5 0.0 0.1 0.1 0.25 0.0 0.0 0.0 0.0 0.0` on `/tuio/2Dblb`, for an active blob 3 of area 0: the area 0.25 is stored as vx and the area stays 0. | Read the area at index 7 into `setArea` and the five rates at 8 to 12, as the record's area field and setter suggest. | not executed | `SetMessages.BlobSetAsWritten` (shown by `SetMessages.BlobFieldsShiftAsWritten` and `SetMessages.BlobAreaBecomesVelocity`) | `SetMessages.BlobSet` (with `SetMessages.BlobSetStoresProfile`); the dispatcher keeps the handler's reading |
