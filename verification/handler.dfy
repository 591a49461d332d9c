/**
  The dispatcher: routes each decoded message of a batch to the tracker of its class by
  address pattern, and to the right handler by the message type in argument 0. A frame
  terminator produces an event for its class instead of a signal.
 */
module Handler {
  import opened Wrappers
  import opened Motion
  import opened Osc
  import opened Tracker
  import opened SetMessages
  import opened Batches
  import C = CursorRecord
  import T = TokenRecord
  import Bl = BlobRecord

  const CursorPattern: string := "/tuio/2Dcur"
  const TokenPattern: string := "/tuio/2Dobj"
  const BlobPattern: string := "/tuio/2Dblb"

  datatype Class = CursorClass | TokenClass | BlobClass

  function ClassOf(pattern: string): (c: Option<Class>)
    ensures c == Some(CursorClass) <==> pattern == CursorPattern
    ensures c == Some(TokenClass) <==> pattern == TokenPattern
    ensures c == Some(BlobClass) <==> pattern == BlobPattern
  {
    if pattern == CursorPattern then Some(CursorClass)
    else if pattern == TokenPattern then Some(TokenClass)
    else if pattern == BlobPattern then Some(BlobClass)
    else None
  }

  datatype Kind = SourceMsg | AliveMsg | SetMsg | FseqMsg

  /** The message type argument 0 names. A number is turned into its decimal text, which never
      names a message type, so only a byte-array argument can. */
  function KindOf(tag: Arg): (k: Option<Kind>)
    ensures k.Some? ==> tag.B?
    ensures k == Some(SourceMsg) <==> tag == B("source")
    ensures k == Some(AliveMsg) <==> tag == B("alive")
    ensures k == Some(SetMsg) <==> tag == B("set")
    ensures k == Some(FseqMsg) <==> tag == B("fseq")
  {
    match tag
    case B(text) =>
      if text == "source" then Some(SourceMsg)
      else if text == "alive" then Some(AliveMsg)
      else if text == "set" then Some(SetMsg)
      else if text == "fseq" then Some(FseqMsg)
      else None
    case _ => None
  }

  datatype Event =
    | CursorEvent(cursors: Frame<C.CursorPose>)
    | TokenEvent(tokens: Frame<T.TokenPose>)
    | BlobEvent(blobs: Frame<Bl.BlobPose>)

  /** The three trackers the handler owns. */
  datatype State = State(
    cursors: Tracker<C.CursorPose>,
    tokens: Tracker<T.TokenPose>,
    blobs: Tracker<Bl.BlobPose>)

  function Initial(): State {
    State(Empty(), Empty(), Empty())
  }

  /** The effect of one message on the tracker of its class: the new tracker and, for a frame
      terminator, the frame to emit. */
  function ClassStep<P>(t: Tracker<P>, kind: Kind, args: seq<Arg>, blank: P,
                        onSet: (Tracker<P>, seq<Arg>) -> Tracker<P>): (r: (Tracker<P>, Option<Frame<P>>))
    ensures r.1.Some? <==> kind == FseqMsg
    ensures kind == SourceMsg ==> r.0 == t
    ensures kind == AliveMsg ==> r == (Alive(t, args, blank), None)
    ensures kind == SetMsg ==> r == (onSet(t, args), None)
    ensures kind == FseqMsg ==> r.0 == Tracker(t.active, []) && r.1 == Some(Frame(t.active, t.dead))
  {
    match kind
    case SourceMsg => (t, None)
    case AliveMsg => (Alive(t, args, blank), None)
    case SetMsg => (onSet(t, args), None)
    case FseqMsg => var (next, frame) := Fseq(t); (next, Some(frame))
  }

  type Outcome = Batches.Outcome<State, Event>

  /** The object an alive message creates for a new id is the class's constructed record
      with its state set to Pressed. */
  lemma BornIsConstructedPressed(k: int)
    ensures Born(k, C.Blank) == C.NewCursor(k).(state := Pressed)
    ensures Born(k, T.Blank) == T.NewToken(k).(state := Pressed)
    ensures Born(k, Bl.Blank) == Bl.SetState(Bl.NewBlob(k), Pressed)
  {
  }

  /** One message. An unknown address pattern, a message without arguments, or an unknown
      message type stops the whole batch; anything else is handled by its class's tracker,
      and the other two trackers are left alone. */
  function Step(h: State, m: Message): (o: Outcome)
    ensures o.Stop? <==> ClassOf(m.pattern).None? || |m.args| == 0 || KindOf(m.args[0]).None?
    ensures o.Continue? ==> (o.event.Some? <==> KindOf(m.args[0]) == Some(FseqMsg))
    ensures o.Continue? && m.pattern != CursorPattern ==> o.state.cursors == h.cursors
    ensures o.Continue? && m.pattern != TokenPattern ==> o.state.tokens == h.tokens
    ensures o.Continue? && m.pattern != BlobPattern ==> o.state.blobs == h.blobs
    ensures o.Continue? && o.event.Some? ==>
              (o.event.value.CursorEvent? <==> m.pattern == CursorPattern)
              && (o.event.value.TokenEvent? <==> m.pattern == TokenPattern)
              && (o.event.value.BlobEvent? <==> m.pattern == BlobPattern)
  {
    match ClassOf(m.pattern)
    case None => Stop
    case Some(cls) =>
      if |m.args| == 0 then Stop
      else
        match KindOf(m.args[0])
        case None => Stop
        case Some(kind) =>
          match cls
          case CursorClass =>
            var (t, f) := ClassStep(h.cursors, kind, m.args, C.Blank, CursorSet);
            Continue(h.(cursors := t), if f.Some? then Some(CursorEvent(f.value)) else None)
          case TokenClass =>
            var (t, f) := ClassStep(h.tokens, kind, m.args, T.Blank, TokenSet);
            Continue(h.(tokens := t), if f.Some? then Some(TokenEvent(f.value)) else None)
          case BlobClass =>
            var (t, f) := ClassStep(h.blobs, kind, m.args, Bl.Blank, BlobSetAsWritten);
            Continue(h.(blobs := t), if f.Some? then Some(BlobEvent(f.value)) else None)
  }

  /** The messages of one datagram, in order, until one of them stops the batch. */
  function ProcessBatch(h: State, msgs: seq<Message>): Batches.Batch<State, Event> {
    Batches.Run(Step, h, msgs)
  }

  /** The first message with an unknown address pattern, no arguments or an unknown message
      type ends the datagram: the messages before it are applied and none after it. */
  lemma BatchStopsAtFirstBad(h: State, msgs: seq<Message>, i: nat)
    requires i < |msgs|
    requires !ProcessBatch(h, msgs[..i]).stopped
    requires ClassOf(msgs[i].pattern).None? || |msgs[i].args| == 0 || KindOf(msgs[i].args[0]).None?
    ensures ProcessBatch(h, msgs) == ProcessBatch(h, msgs[..i]).(stopped := true)
  {
    Batches.StopsAtFirstBad(Step, h, msgs, i);
  }

  /** A source message is only checked: it never changes any tracker and emits nothing,
      whether or not it is well formed. */
  lemma SourceNeverMutates(h: State, m: Message)
    requires ClassOf(m.pattern).Some? && |m.args| > 0 && m.args[0] == B("source")
    ensures Step(h, m) == Continue(h, None)
  {
  }

  /** Routing of cursor messages: alive runs the alive pass with a blank cursor, set runs the
      cursor set handler, and a frame terminator emits the active table and dead list as they
      were, then leaves the dead list empty and the active table as it was. */
  lemma CursorMessages(h: State, m: Message)
    requires m.pattern == CursorPattern && |m.args| > 0
    ensures m.args[0] == B("alive") ==>
              Step(h, m) == Continue(h.(cursors := Alive(h.cursors, m.args, C.Blank)), None)
    ensures m.args[0] == B("set") ==>
              Step(h, m) == Continue(h.(cursors := CursorSet(h.cursors, m.args)), None)
    ensures m.args[0] == B("fseq") ==>
              Step(h, m) == Continue(h.(cursors := Tracker(h.cursors.active, [])),
                                     Some(CursorEvent(Frame(h.cursors.active, h.cursors.dead))))
  {
  }

  /** Routing of token messages, as for cursors with the token blank and set handler. */
  lemma TokenMessages(h: State, m: Message)
    requires m.pattern == TokenPattern && |m.args| > 0
    ensures m.args[0] == B("alive") ==>
              Step(h, m) == Continue(h.(tokens := Alive(h.tokens, m.args, T.Blank)), None)
    ensures m.args[0] == B("set") ==>
              Step(h, m) == Continue(h.(tokens := TokenSet(h.tokens, m.args)), None)
    ensures m.args[0] == B("fseq") ==>
              Step(h, m) == Continue(h.(tokens := Tracker(h.tokens.active, [])),
                                     Some(TokenEvent(Frame(h.tokens.active, h.tokens.dead))))
  {
  }

  /** Routing of blob messages, as for cursors with the blob blank and the blob set handler
      in the handler's own layout. */
  lemma BlobMessages(h: State, m: Message)
    requires m.pattern == BlobPattern && |m.args| > 0
    ensures m.args[0] == B("alive") ==>
              Step(h, m) == Continue(h.(blobs := Alive(h.blobs, m.args, Bl.Blank)), None)
    ensures m.args[0] == B("set") ==>
              Step(h, m) == Continue(h.(blobs := BlobSetAsWritten(h.blobs, m.args)), None)
    ensures m.args[0] == B("fseq") ==>
              Step(h, m) == Continue(h.(blobs := Tracker(h.blobs.active, [])),
                                     Some(BlobEvent(Frame(h.blobs.active, h.blobs.dead))))
  {
  }

  predicate AllConsistent(h: State) {
    Consistent(h.cursors) && Consistent(h.tokens) && Consistent(h.blobs)
  }

  /** The handler starts out consistent: every table is empty and nothing is dead. */
  lemma InitialConsistent()
    ensures AllConsistent(Initial())
  {
  }

  lemma ClassStepPreservesConsistent<P>(t: Tracker<P>, kind: Kind, args: seq<Arg>, blank: P,
                                         onSet: (Tracker<P>, seq<Arg>) -> Tracker<P>)
    requires Consistent(t)
    requires kind == SetMsg ==> Consistent(onSet(t, args))
    ensures Consistent(ClassStep(t, kind, args, blank, onSet).0)
  {
    if kind == AliveMsg {
      AlivePreservesConsistent(t, args, blank);
    }
  }

  /** Every message keeps every tracker consistent: active objects sit under their own id and
      nothing tracked is Released. */
  lemma StepPreservesConsistent(h: State, m: Message)
    requires AllConsistent(h)
    requires Step(h, m).Continue?
    ensures AllConsistent(Step(h, m).state)
  {
    var kind := KindOf(m.args[0]).value;
    match ClassOf(m.pattern).value
    case CursorClass =>
      CursorSetPreservesConsistent(h.cursors, m.args);
      ClassStepPreservesConsistent(h.cursors, kind, m.args, C.Blank, CursorSet);
    case TokenClass =>
      TokenSetPreservesConsistent(h.tokens, m.args);
      ClassStepPreservesConsistent(h.tokens, kind, m.args, T.Blank, TokenSet);
    case BlobClass =>
      BlobSetAsWrittenPreservesConsistent(h.blobs, m.args);
      ClassStepPreservesConsistent(h.blobs, kind, m.args, Bl.Blank, BlobSetAsWritten);
  }

  /** A whole datagram keeps every tracker consistent, however it ends. */
  lemma BatchPreservesConsistent(h: State, msgs: seq<Message>)
    requires AllConsistent(h)
    ensures AllConsistent(ProcessBatch(h, msgs).state)
  {
    forall s, m | AllConsistent(s) && Step(s, m).Continue?
      ensures AllConsistent(Step(s, m).state)
    {
      StepPreservesConsistent(s, m);
    }
    Batches.RunPreserves(Step, AllConsistent, h, msgs);
  }
}
