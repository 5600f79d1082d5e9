/** The session store: two tables changed under one lock by the request handlers, the session
    runner and the audio consumer, with sessions that expire. */
module SessionStore {
  import opened Bytes

  type Chunk = seq<Byte>

  datatype Status = Accepted | Running | Done | Failed

  /** A missing text and an empty one are the same to every reader of the record. */
  datatype Session = Session(
    device: string, wav: string, status: Status, step: string, reason: string, question: string,
    answer: string, errorCode: string, consumer: string, expiresAt: int)

  datatype Audio = Audio(chunks: seq<Chunk>, finished: bool, error: string)

  datatype Tables = Tables(sessions: map<string, Session>, audio: map<string, Audio>)

  const EMPTY := Tables(map[], map[])

  datatype Changes = Changes(status: Option<Status>, step: Option<string>, reason: Option<string>,
                             question: Option<string>, answer: Option<string>)

  /** One visit to the lock. `Peek` and `Take` are the locked sections of the two waiting
      loops. */
  datatype Op =
    | Create(id: string, device: string, wav: string)
    | Get(id: string)
    | Update(id: string, changes: Changes)
    | MarkDone(id: string, reason: string, answer: string)
    | MarkFailed(id: string, code: string)
    | Claim(id: string, consumer: string)
    | Append(id: string, chunk: Chunk)
    | Finish(id: string)
    | Fail(id: string, code: string)
    | Peek(id: string)
    | Take(id: string)

  datatype Event = Event(op: Op, now: int)

  datatype Reply =
    | Payload(session: Option<Session>)
    | Said(ok: bool)
    | Got(chunk: Chunk)
    | Ended
    | Broken(code: string)
    | Idle

  function Or<T>(change: Option<T>, otherwise: T): T {
    if change.Some? then change.value else otherwise
  }

  function Changed(s: Session, c: Changes): Session {
    s.(status := Or(c.status, s.status), step := Or(c.step, s.step), reason := Or(c.reason, s.reason),
       question := Or(c.question, s.question), answer := Or(c.answer, s.answer))
  }

  /** The record is there and its time has not come. */
  predicate Live(t: Tables, id: string, now: int) {
    id in t.sessions && now < t.sessions[id].expiresAt
  }

  predicate Streams(t: Tables, id: string, now: int) {
    Live(t, id, now) && id in t.audio
  }

  function Purged(t: Tables, id: string): Tables {
    Tables(t.sessions - {id}, t.audio - {id})
  }

  /** The session operations drop an expired record; an unknown one they leave alone. */
  function WithSession(t: Tables, id: string, now: int, s: Session): Tables {
    if Live(t, id, now) then t.(sessions := t.sessions[id := s])
    else if id in t.sessions then Purged(t, id)
    else t
  }

  /** The audio operations drop whatever is there unless both entries are. */
  function WithAudio(t: Tables, id: string, now: int, a: Audio): Tables {
    if Streams(t, id, now) then t.(audio := t.audio[id := a]) else Purged(t, id)
  }

  function SessionAfter(s: Session, op: Op): Session {
    match op
    case Update(_, changes) => Changed(s, changes)
    case MarkDone(_, reason, answer) => s.(status := Done, step := "done", reason := reason, answer := answer)
    case MarkFailed(_, code) => s.(status := Failed, step := "failed", reason := "failed", errorCode := code)
    case Claim(_, consumer) => if s.consumer != "" then s else s.(consumer := consumer)
    case _ => s
  }

  function AudioAfter(a: Audio, op: Op): Audio {
    match op
    case Append(_, chunk) => a.(chunks := a.chunks + [chunk])
    case Finish(_) => a.(finished := true)
    case Fail(_, code) => a.(finished := true, error := code)
    case Take(_) => a.(chunks := if a.chunks == [] then [] else a.chunks[1..])
    case _ => a
  }

  predicate IsAudioOp(op: Op) {
    op.Append? || op.Finish? || op.Fail? || op.Peek? || op.Take?
  }

  function Next(ttl: nat, t: Tables, e: Event): Tables {
    var id, op, now := e.op.id, e.op, e.now;
    if op.Create? then
      Tables(t.sessions[id := Session(op.device, op.wav, Accepted, "accepted", "", "", "", "", "", now + ttl)],
             t.audio[id := Audio([], false, "")])
    else if op.Append? && op.chunk == [] then t
    else if IsAudioOp(op) then
      WithAudio(t, id, now, if Streams(t, id, now) then AudioAfter(t.audio[id], op) else Audio([], false, ""))
    else if Live(t, id, now) then WithSession(t, id, now, SessionAfter(t.sessions[id], op))
    else if id in t.sessions then Purged(t, id)
    else t
  }

  function AudioReply(a: Audio, op: Op): Reply {
    match op
    case Peek(_) =>
      if a.chunks != [] then Said(true)
      else if a.finished then Broken(if a.error != "" then a.error else "tts_empty_audio")
      else Idle
    case Take(_) =>
      if a.chunks != [] then Got(a.chunks[0])
      else if a.finished then if a.error != "" then Broken(a.error) else Ended
      else Idle
    case _ => Said(true)
  }

  function ReplyTo(t: Tables, e: Event): Reply {
    var id, op, now := e.op.id, e.op, e.now;
    match op
    case Create(_, _, _) => Said(true)
    case Get(_) => Payload(if Live(t, id, now) then Some(t.sessions[id]) else None)
    case Claim(_, consumer) =>
      Said(Live(t, id, now) && (t.sessions[id].consumer == "" || t.sessions[id].consumer == consumer))
    case Append(_, chunk) => Said(chunk != [] && Streams(t, id, now))
    case Finish(_) => Said(Streams(t, id, now))
    case Fail(_, _) => Said(Streams(t, id, now))
    case Peek(_) => if Streams(t, id, now) then AudioReply(t.audio[id], op) else Broken("session_not_found")
    case Take(_) => if Streams(t, id, now) then AudioReply(t.audio[id], op) else Broken("session_not_found")
    case _ => Payload(if Live(t, id, now) then Some(SessionAfter(t.sessions[id], op)) else None)
  }

  // ---------------------------------------------------------------- histories

  /** The tables after a history that began with an empty store. */
  function After(ttl: nat, log: seq<Event>): Tables
    decreases |log|
  {
    if log == [] then EMPTY else Next(ttl, After(ttl, log[..|log| - 1]), log[|log| - 1])
  }

  /** The reply to the last event of a history. */
  function LastReply(ttl: nat, log: seq<Event>): Reply
    requires log != []
  {
    ReplyTo(After(ttl, log[..|log| - 1]), log[|log| - 1])
  }

  function AppendedBy(t: Tables, e: Event, id: string): seq<Chunk> {
    if e.op.Append? && e.op.id == id && ReplyTo(t, e) == Said(true) then [e.op.chunk] else []
  }

  function DeliveredBy(t: Tables, e: Event, id: string): seq<Chunk> {
    if e.op.Take? && e.op.id == id && ReplyTo(t, e).Got? then [ReplyTo(t, e).chunk] else []
  }

  /** The chunks accepted for a session. */
  function Appended(ttl: nat, log: seq<Event>, id: string): seq<Chunk>
    decreases |log|
  {
    if log == [] then []
    else
      var before := log[..|log| - 1];
      Appended(ttl, before, id) + AppendedBy(After(ttl, before), log[|log| - 1], id)
  }

  /** The chunks handed to the session's consumer. */
  function Delivered(ttl: nat, log: seq<Event>, id: string): seq<Chunk>
    decreases |log|
  {
    if log == [] then []
    else
      var before := log[..|log| - 1];
      Delivered(ttl, before, id) + DeliveredBy(After(ttl, before), log[|log| - 1], id)
  }

  predicate Unused(log: seq<Event>, id: string) {
    forall i :: 0 <= i < |log| ==> !(log[i].op.Create? && log[i].op.id == id)
  }

  /** Session ids are drawn at random; two sessions never share one. */
  predicate FreshIds(log: seq<Event>) {
    forall i :: 0 <= i < |log| && log[i].op.Create? ==> Unused(log[..i], log[i].op.id)
  }

  // ---------------------------------------------------------------- same keys

  lemma {:induction false} SameKeys(ttl: nat, log: seq<Event>)
    ensures After(ttl, log).sessions.Keys == After(ttl, log).audio.Keys
    decreases |log|
  {
    if log != [] {
      SameKeys(ttl, log[..|log| - 1]);
    }
  }

  lemma {:induction false} UnusedIsAbsent(ttl: nat, log: seq<Event>, id: string)
    requires Unused(log, id)
    ensures id !in After(ttl, log).sessions && id !in After(ttl, log).audio
    ensures Appended(ttl, log, id) == [] && Delivered(ttl, log, id) == []
    decreases |log|
  {
    if log != [] {
      UnusedIsAbsent(ttl, log[..|log| - 1], id);
    }
  }

  // ---------------------------------------------------------------- nothing is lost or made up

  /** Delivered chunks followed by queued ones are the accepted ones. */
  ghost predicate Conserved(t: Tables, id: string, put: seq<Chunk>, got: seq<Chunk>) {
    && (id in t.audio ==> got + t.audio[id].chunks == put)
    && got <= put
  }

  lemma NextConserves(ttl: nat, t: Tables, e: Event, id: string, put: seq<Chunk>, got: seq<Chunk>)
    requires Conserved(t, id, put, got)
    requires e.op.Create? && e.op.id == id ==> put == []
    ensures Conserved(Next(ttl, t, e), id, put + AppendedBy(t, e, id), got + DeliveredBy(t, e, id))
  {
    match e.op
    case Create(_, _, _) =>
    case Append(_, _) =>
    case Take(_) =>
    case _ =>
  }

  lemma {:induction false} NothingLost(ttl: nat, log: seq<Event>, id: string)
    requires FreshIds(log)
    ensures Conserved(After(ttl, log), id, Appended(ttl, log, id), Delivered(ttl, log, id))
    decreases |log|
  {
    if log != [] {
      var e, before := log[|log| - 1], log[..|log| - 1];
      FreshPrefix(log);
      NothingLost(ttl, before, id);
      if e.op.Create? && e.op.id == id {
        UnusedIsAbsent(ttl, before, id);
      }
      NextConserves(ttl, After(ttl, before), e, id, Appended(ttl, before, id), Delivered(ttl, before, id));
    }
  }

  /** A consumer whose stream ends, with or without an error of the stream, has first been
      handed every chunk accepted until then. */
  lemma EndMeansAll(ttl: nat, log: seq<Event>)
    requires FreshIds(log) && log != [] && log[|log| - 1].op.Take?
    requires var r := LastReply(ttl, log); r.Ended? || (r.Broken? && log[|log| - 1].op.id in After(ttl, log).audio)
    ensures Delivered(ttl, log, log[|log| - 1].op.id) == Appended(ttl, log, log[|log| - 1].op.id)
  {
    var id := log[|log| - 1].op.id;
    NothingLost(ttl, log, id);
    hide Appended, Delivered;
    assert After(ttl, log).audio[id].chunks == [];
  }

  lemma FreshPrefix(log: seq<Event>)
    requires FreshIds(log) && log != []
    ensures FreshIds(log[..|log| - 1])
    ensures log[|log| - 1].op.Create? ==> Unused(log[..|log| - 1], log[|log| - 1].op.id)
  {
    var before := log[..|log| - 1];
    forall i | 0 <= i < |before| && before[i].op.Create? ensures Unused(before[..i], before[i].op.id) {
      assert before[..i] == log[..i];
    }
  }

  // ---------------------------------------------------------------- expiry

  predicate TimePasses(log: seq<Event>, from: int) {
    forall i :: 0 <= i < |log| ==> from <= log[i].now
  }

  function Run(ttl: nat, t: Tables, log: seq<Event>): Tables
    decreases |log|
  {
    if log == [] then t else Next(ttl, Run(ttl, t, log[..|log| - 1]), log[|log| - 1])
  }

  predicate Absent(t: Tables, id: string, now: int) {
    id in t.sessions ==> t.sessions[id].expiresAt <= now
  }

  /** An expired session never comes back: from then on no operation finds it. */
  lemma {:induction false} ExpiredForGood(ttl: nat, t: Tables, id: string, now: int, log: seq<Event>)
    requires Absent(t, id, now) && Unused(log, id) && TimePasses(log, now)
    ensures Absent(Run(ttl, t, log), id, now)
    ensures forall e: Event :: now <= e.now && e.op.id == id && !e.op.Create? ==>
              ReplyTo(Run(ttl, t, log), e) in {Payload(None), Said(false), Broken("session_not_found")}
    decreases |log|
  {
    if log != [] {
      ExpiredForGood(ttl, t, id, now, log[..|log| - 1]);
    }
  }

  /** One operation leaves every other session as it is. */
  lemma OthersUntouched(ttl: nat, t: Tables, e: Event, id: string)
    requires e.op.id != id
    ensures var u := Next(ttl, t, e);
            && (id in u.sessions <==> id in t.sessions) && (id in u.audio <==> id in t.audio)
            && (id in t.sessions ==> u.sessions[id] == t.sessions[id])
            && (id in t.audio ==> u.audio[id] == t.audio[id])
  {
  }

  /** What a session is made of is fixed when it is created. */
  predicate Made(t: Tables, create: Event, ttl: nat)
    requires create.op.Create?
  {
    var id := create.op.id;
    && id in t.sessions && id in t.audio && t.sessions[id].expiresAt == create.now + ttl
    && t.sessions[id].device == create.op.device && t.sessions[id].wav == create.op.wav
  }

  lemma StaysMade(ttl: nat, t: Tables, create: Event, e: Event)
    requires create.op.Create? && Made(t, create, ttl)
    requires e.op.id == create.op.id ==> !e.op.Create? && e.now < create.now + ttl
    ensures Made(Next(ttl, t, e), create, ttl)
  {
    if e.op.id != create.op.id {
      OthersUntouched(ttl, t, e, create.op.id);
    }
  }

  /** A session lives for the configured time: an operation that comes before it is over finds
      the session, one that comes after does not. */
  lemma {:induction false} LivesForItsTime(ttl: nat, t: Tables, create: Event, log: seq<Event>)
    requires create.op.Create? && Unused(log, create.op.id)
    requires forall i :: 0 <= i < |log| && log[i].op.id == create.op.id ==> log[i].now < create.now + ttl
    ensures var u, id := Run(ttl, Next(ttl, t, create), log), create.op.id;
            && Made(u, create, ttl)
            && (forall now :: ReplyTo(u, Event(Get(id), now)).session.Some? <==> now < create.now + ttl)
            && (forall now :: ReplyTo(u, Event(Finish(id), now)) == Said(now < create.now + ttl))
    decreases |log|
  {
    if log != [] {
      LivesForItsTime(ttl, t, create, log[..|log| - 1]);
      StaysMade(ttl, Run(ttl, Next(ttl, t, create), log[..|log| - 1]), create, log[|log| - 1]);
    }
  }

  /** What a reader gets right after a session was created or changed. */
  lemma ReadsBack(ttl: nat, t: Tables, e: Event, now: int)
    requires e.op.Create? || Live(t, e.op.id, e.now)
    ensures var id, u := e.op.id, Next(ttl, t, e);
            && var r := ReplyTo(u, Event(Get(id), now));
            && (r.Payload? && r.session.Some? ==>
                  var s := r.session.value;
                  && (e.op.Create? ==>
                        s == Session(e.op.device, e.op.wav, Accepted, "accepted", "", "", "", "", "", e.now + ttl))
                  && (e.op.MarkDone? ==>
                        s.status == Done && s.step == "done" && s.reason == e.op.reason && s.answer == e.op.answer
                        && s.question == t.sessions[id].question && s.errorCode == t.sessions[id].errorCode)
                  && (e.op.MarkFailed? ==>
                        s.status == Failed && s.step == "failed" && s.reason == "failed" && s.errorCode == e.op.code
                        && s.question == t.sessions[id].question && s.answer == t.sessions[id].answer)
                  && (e.op.Update? ==>
                        && (e.op.changes.status.Some? ==> s.status == e.op.changes.status.value)
                        && (e.op.changes.answer.Some? ==> s.answer == e.op.changes.answer.value)
                        && (e.op.changes.question.Some? ==> s.question == e.op.changes.question.value)
                        && (e.op.changes.step.Some? ==> s.step == e.op.changes.step.value)
                        && (e.op.changes.reason.Some? ==> s.reason == e.op.changes.reason.value)
                        && (e.op.changes.status.None? ==> s.status == t.sessions[id].status)
                        && (e.op.changes.answer.None? ==> s.answer == t.sessions[id].answer)
                        && (e.op.changes.question.None? ==> s.question == t.sessions[id].question)
                        && s.errorCode == t.sessions[id].errorCode && s.consumer == t.sessions[id].consumer)
                  && (e.op.Get? || IsAudioOp(e.op) ==> s == t.sessions[id]))
    ensures ReplyTo(Next(ttl, t, e), Event(Get(e.op.id), now)).Payload?
  {
    match e.op
    case Create(_, _, _) => case Get(_) => case Update(_, _) => case MarkDone(_, _, _) => case MarkFailed(_, _) =>
    case Claim(_, _) => case Append(_, _) => case Finish(_) => case Fail(_, _) => case Peek(_) => case Take(_) =>
  }

  // ---------------------------------------------------------------- the one audio consumer

  predicate ClaimedBy(t: Tables, id: string, consumer: string) {
    id in t.sessions ==> t.sessions[id].consumer == consumer
  }

  lemma {:induction false} ConsumerStays(ttl: nat, t: Tables, id: string, consumer: string, log: seq<Event>)
    requires ClaimedBy(t, id, consumer) && consumer != "" && Unused(log, id)
    ensures ClaimedBy(Run(ttl, t, log), id, consumer)
    decreases |log|
  {
    if log != [] {
      ConsumerStays(ttl, t, id, consumer, log[..|log| - 1]);
    }
  }

  /** In every continuation, a claim by another consumer is refused. */
  ghost predicate Exclusive(ttl: nat, t: Tables, id: string, consumer: string) {
    forall log, e: Event | Unused(log, id) && IsRival(e, id, consumer) ::
      ReplyTo(Run(ttl, t, log), e) == Said(false)
  }

  predicate IsRival(e: Event, id: string, consumer: string) {
    e.op.Claim? && e.op.id == id && e.op.consumer != consumer
  }

  /** A successful claim is exclusive for good exactly when the consumer gave a name: an empty
      name claims nothing. */
  lemma ClaimIsExclusiveExactlyWhen(ttl: nat, t: Tables, claim: Event)
    requires claim.op.Claim? && ReplyTo(t, claim) == Said(true)
    ensures Exclusive(ttl, Next(ttl, t, claim), claim.op.id, claim.op.consumer) <==> claim.op.consumer != ""
  {
    var id, t1 := claim.op.id, Next(ttl, t, claim);
    if claim.op.consumer != "" {
      forall log, e: Event | Unused(log, id) && IsRival(e, id, claim.op.consumer)
        ensures ReplyTo(Run(ttl, t1, log), e) == Said(false)
      {
        ConsumerStays(ttl, t1, id, claim.op.consumer, log);
      }
    } else {
      var other := Event(Claim(id, "other"), claim.now);
      assert Unused([], id) && IsRival(other, id, "");
      assert Run(ttl, t1, []) == t1;
      assert ReplyTo(t1, other) == Said(true);
    }
  }

  // ---------------------------------------------------------------- the store itself

  lemma Grow(ttl: nat, log: seq<Event>, e: Event)
    requires FreshIds(log) && (e.op.Create? ==> Unused(log, e.op.id))
    ensures FreshIds(log + [e])
    ensures After(ttl, log + [e]) == Next(ttl, After(ttl, log), e)
    ensures LastReply(ttl, log + [e]) == ReplyTo(After(ttl, log), e)
  {
    hide Next, ReplyTo, Unused;
    var longer := log + [e];
    assert longer[..|longer| - 1] == log;
    forall i | 0 <= i < |longer| && longer[i].op.Create? ensures Unused(longer[..i], longer[i].op.id) {
      if i < |log| {
        assert longer[..i] == log[..i];
      }
    }
  }

  class Store {
    const ttl: nat
    var sessions: map<string, Session>
    var audio: map<string, Audio>
    ghost var log: seq<Event>

    function View(): Tables
      reads this
    {
      Tables(sessions, audio)
    }

    ghost predicate Valid()
      reads this
    {
      View() == After(ttl, log) && FreshIds(log)
    }

    constructor (ttl: nat)
      ensures Valid() && log == [] && this.ttl == ttl
    {
      this.ttl := ttl;
      sessions, audio, log := map[], map[], [];
    }

    /** The event is the only thing that happened, and this was its reply. */
    twostate predicate Did(op: Op, now: int, reply: Reply)
      reads this
    {
      && Valid()
      && log == old(log) + [Event(op, now)]
      && LastReply(ttl, log) == reply
    }

    method CreateSession(id: string, device: string, wav: string, now: int)
      requires Valid() && Unused(log, id)
      modifies this
      ensures Did(Create(id, device, wav), now, Said(true))
    {
      Grow(ttl, log, Event(Create(id, device, wav), now));
      sessions := sessions[id := Session(device, wav, Accepted, "accepted", "", "", "", "", "", now + ttl)];
      audio := audio[id := Audio([], false, "")];
      log := log + [Event(Create(id, device, wav), now)];
    }

    /** The opening lines of every session operation: an expired record is dropped. */
    method Find(id: string, now: int) returns (payload: Option<Session>)
      modifies this
      ensures log == old(log)
      ensures View() == if old(id in sessions && !Live(View(), id, now)) then Purged(old(View()), id) else old(View())
      ensures payload == if old(Live(View(), id, now)) then Some(old(sessions[id])) else None
    {
      payload := if id in sessions then Some(sessions[id]) else None;
      if payload.Some? && payload.value.expiresAt <= now {
        sessions, audio := sessions - {id}, audio - {id};
        payload := None;
      }
    }

    method GetSession(id: string, now: int) returns (payload: Option<Session>)
      requires Valid()
      modifies this
      ensures Did(Get(id), now, Payload(payload))
    {
      Grow(ttl, log, Event(Get(id), now));
      payload := Find(id, now);
      if payload.Some? {
        assert sessions[id := payload.value] == sessions;
      }
      log := log + [Event(Get(id), now)];
    }

    method UpdateSession(id: string, changes: Changes, now: int) returns (payload: Option<Session>)
      requires Valid()
      modifies this
      ensures Did(Update(id, changes), now, Payload(payload))
    {
      Grow(ttl, log, Event(Update(id, changes), now));
      payload := Find(id, now);
      if payload.Some? {
        payload := Some(Changed(payload.value, changes));
        sessions := sessions[id := payload.value];
      }
      log := log + [Event(Update(id, changes), now)];
    }

    method SetDone(id: string, reason: string, answer: string, now: int) returns (payload: Option<Session>)
      requires Valid()
      modifies this
      ensures Did(MarkDone(id, reason, answer), now, Payload(payload))
    {
      Grow(ttl, log, Event(MarkDone(id, reason, answer), now));
      payload := Find(id, now);
      if payload.Some? {
        payload := Some(payload.value.(status := Done, step := "done", reason := reason, answer := answer));
        sessions := sessions[id := payload.value];
      }
      log := log + [Event(MarkDone(id, reason, answer), now)];
    }

    method SetFailed(id: string, code: string, now: int) returns (payload: Option<Session>)
      requires Valid()
      modifies this
      ensures Did(MarkFailed(id, code), now, Payload(payload))
    {
      Grow(ttl, log, Event(MarkFailed(id, code), now));
      payload := Find(id, now);
      if payload.Some? {
        payload := Some(payload.value.(status := Failed, step := "failed", reason := "failed", errorCode := code));
        sessions := sessions[id := payload.value];
      }
      log := log + [Event(MarkFailed(id, code), now)];
    }

    method ClaimAudioConsumer(id: string, consumer: string, now: int) returns (ok: bool)
      requires Valid()
      modifies this
      ensures Did(Claim(id, consumer), now, Said(ok))
    {
      Grow(ttl, log, Event(Claim(id, consumer), now));
      var payload := Find(id, now);
      if payload.None? {
        ok := false;
      } else if payload.value.consumer != "" {
        assert sessions[id := payload.value] == sessions;
        ok := payload.value.consumer == consumer;
      } else {
        sessions := sessions[id := payload.value.(consumer := consumer)];
        ok := true;
      }
      log := log + [Event(Claim(id, consumer), now)];
    }

    /** The opening lines of every audio operation: unless both entries are there and alive,
        both are dropped. */
    method FindAudio(id: string, now: int) returns (state: Option<Audio>)
      modifies this
      ensures log == old(log)
      ensures View() == if old(Streams(View(), id, now)) then old(View()) else Purged(old(View()), id)
      ensures state == if old(Streams(View(), id, now)) then Some(old(audio[id])) else None
    {
      if id !in sessions || id !in audio || sessions[id].expiresAt <= now {
        sessions, audio := sessions - {id}, audio - {id};
        return None;
      }
      return Some(audio[id]);
    }

    method AppendAudioChunk(id: string, chunk: Chunk, now: int) returns (ok: bool)
      requires Valid()
      modifies this
      ensures Did(Append(id, chunk), now, Said(ok))
    {
      Grow(ttl, log, Event(Append(id, chunk), now));
      if chunk == [] {
        ok := false;
      } else {
        var state := FindAudio(id, now);
        ok := state.Some?;
        if ok {
          audio := audio[id := state.value.(chunks := state.value.chunks + [chunk])];
        }
      }
      log := log + [Event(Append(id, chunk), now)];
    }

    method FinishAudio(id: string, now: int) returns (ok: bool)
      requires Valid()
      modifies this
      ensures Did(Finish(id), now, Said(ok))
    {
      Grow(ttl, log, Event(Finish(id), now));
      var state := FindAudio(id, now);
      ok := state.Some?;
      if ok {
        audio := audio[id := state.value.(finished := true)];
      }
      log := log + [Event(Finish(id), now)];
    }

    method FailAudio(id: string, code: string, now: int) returns (ok: bool)
      requires Valid()
      modifies this
      ensures Did(Fail(id, code), now, Said(ok))
    {
      Grow(ttl, log, Event(Fail(id, code), now));
      var state := FindAudio(id, now);
      ok := state.Some?;
      if ok {
        audio := audio[id := state.value.(finished := true, error := code)];
      }
      log := log + [Event(Fail(id, code), now)];
    }

    /** One locked section of `wait_for_first_audio_chunk`. */
    method PeekAudio(id: string, now: int) returns (reply: Reply)
      requires Valid()
      modifies this
      ensures Did(Peek(id), now, reply)
    {
      Grow(ttl, log, Event(Peek(id), now));
      var state := FindAudio(id, now);
      if state.None? {
        reply := Broken("session_not_found");
      } else {
        assert audio[id := state.value] == audio;
        if state.value.chunks != [] {
          reply := Said(true);
        } else if state.value.finished {
          reply := Broken(if state.value.error != "" then state.value.error else "tts_empty_audio");
        } else {
          reply := Idle;
        }
      }
      log := log + [Event(Peek(id), now)];
    }

    /** One locked section of `consume_audio_stream`. */
    method TakeAudio(id: string, now: int) returns (reply: Reply)
      requires Valid()
      modifies this
      ensures Did(Take(id), now, reply)
    {
      Grow(ttl, log, Event(Take(id), now));
      var state := FindAudio(id, now);
      if state.None? {
        reply := Broken("session_not_found");
      } else if state.value.chunks != [] {
        reply := Got(state.value.chunks[0]);
        audio := audio[id := state.value.(chunks := state.value.chunks[1..])];
      } else {
        assert audio[id := state.value] == audio;
        if state.value.finished {
          reply := if state.value.error != "" then Broken(state.value.error) else Ended;
        } else {
          reply := Idle;
        }
      }
      log := log + [Event(Take(id), now)];
    }

    /** Any operation, as another thread would call it. */
    method Perform(e: Event)
      requires Valid() && (e.op.Create? ==> Unused(log, e.op.id))
      modifies this
      ensures Valid() && log == old(log) + [e]
    {
      match e.op {
        case Create(id, device, wav) => CreateSession(id, device, wav, e.now);
        case Get(id) => var _ := GetSession(id, e.now);
        case Update(id, changes) => var _ := UpdateSession(id, changes, e.now);
        case MarkDone(id, reason, answer) => var _ := SetDone(id, reason, answer, e.now);
        case MarkFailed(id, code) => var _ := SetFailed(id, code, e.now);
        case Claim(id, consumer) => var _ := ClaimAudioConsumer(id, consumer, e.now);
        case Append(id, chunk) => var _ := AppendAudioChunk(id, chunk, e.now);
        case Finish(id) => var _ := FinishAudio(id, e.now);
        case Fail(id, code) => var _ := FailAudio(id, code, e.now);
        case Peek(id) => var _ := PeekAudio(id, e.now);
        case Take(id) => var _ := TakeAudio(id, e.now);
      }
    }

    /** Other threads run between two visits to the lock. */
    method Others(events: seq<Event>)
      requires Valid() && FreshIds(log + events)
      modifies this
      ensures Valid() && log == old(log) + events
    {
      for i := 0 to |events|
        invariant Valid() && log == old(log) + events[..i]
      {
        assert log + events[i..] == old(log) + events;
        NextIsUnused(log, events[i..]);
        Perform(events[i]);
        assert events[..i + 1] == events[..i] + [events[i]];
      }
      assert events[..|events|] == events;
    }
  }

  lemma NextIsUnused(log: seq<Event>, more: seq<Event>)
    requires FreshIds(log + more) && more != []
    ensures more[0].op.Create? ==> Unused(log, more[0].op.id)
  {
    assert (log + more)[|log|] == more[0] && (log + more)[..|log|] == log;
  }

  // ---------------------------------------------------------------- the waiting loops

  /** One round of a waiting loop: what the other threads did before it got the lock, when it
      got it, and whether, having had to wait, it was woken rather than timed out. */
  datatype Turn = Turn(others: seq<Event>, now: int, woken: bool)

  function Visits(turns: seq<Turn>, op: Op): seq<Event> {
    if turns == [] then [] else turns[0].others + [Event(op, turns[0].now)] + Visits(turns[1..], op)
  }

  ghost predicate NobodyTakes(turns: seq<Turn>, id: string) {
    forall i, k :: 0 <= i < |turns| && 0 <= k < |turns[i].others| ==> !IsTake(turns[i].others[k], id)
  }

  predicate IsTake(e: Event, id: string) {
    e.op.Take? && e.op.id == id
  }

  lemma {:induction false} OthersTakeNothing(ttl: nat, log: seq<Event>, events: seq<Event>, id: string)
    requires forall k :: 0 <= k < |events| ==> !IsTake(events[k], id)
    ensures Delivered(ttl, log + events, id) == Delivered(ttl, log, id)
    decreases |events|
  {
    if events == [] {
      assert log + events == log;
    } else {
      var longer := log + events;
      assert longer[..|longer| - 1] == log + events[..|events| - 1];
      OthersTakeNothing(ttl, log, events[..|events| - 1], id);
    }
  }

  lemma DeliveredGrows(ttl: nat, log: seq<Event>, e: Event, id: string)
    requires IsTake(e, id)
    ensures var r := ReplyTo(After(ttl, log), e);
            Delivered(ttl, log + [e], id) == Delivered(ttl, log, id) + if r.Got? then [r.chunk] else []
  {
    assert (log + [e])[..|log|] == log;
  }

  lemma FirstVisit(log: seq<Event>, turns: seq<Turn>, op: Op)
    requires turns != [] && FreshIds(log + Visits(turns, op))
    ensures FreshIds(log + turns[0].others)
    ensures log + Visits(turns, op) == ((log + turns[0].others) + [Event(op, turns[0].now)]) + Visits(turns[1..], op)
  {
    var first := log + turns[0].others;
    var all := log + Visits(turns, op);
    assert first == all[..|first|];
    forall i | 0 <= i < |first| && first[i].op.Create? ensures Unused(first[..i], first[i].op.id) {
      assert first[..i] == all[..i] && first[i] == all[i];
    }
  }

  datatype Waited = Waited(yielded: seq<Chunk>, ending: Reply, log: seq<Event>)

  /** What a consumer gets in these rounds; Idle when it has not asked again. */
  function Consumed(ttl: nat, log: seq<Event>, id: string, turns: seq<Turn>): Waited
    decreases |turns|
  {
    if turns == [] then Waited([], Idle, log)
    else
      var before := log + turns[0].others;
      var e := Event(Take(id), turns[0].now);
      var reply, after := ReplyTo(After(ttl, before), e), before + [e];
      if reply.Got? then
        var more := Consumed(ttl, after, id, turns[1..]);
        more.(yielded := [reply.chunk] + more.yielded)
      else if !reply.Idle? then Waited([], reply, after)
      else if !turns[0].woken then Waited([], Broken("stream_idle_timeout"), after)
      else Consumed(ttl, after, id, turns[1..])
  }

  lemma ConsumedMore(yielded: seq<Chunk>, chunk: Chunk, more: Waited)
    ensures yielded + ([chunk] + more.yielded) == (yielded + [chunk]) + more.yielded
  {
  }

  /** The consumer of an audio stream. As the only one it is handed the chunks in order; when
      the stream ends, normally or with the stream's own error, it has been handed all. */
  method ConsumeAudioStream(store: Store, id: string, turns: seq<Turn>) returns (yielded: seq<Chunk>, ending: Reply)
    requires store.Valid() && NobodyTakes(turns, id) && FreshIds(store.log + Visits(turns, Take(id)))
    modifies store
    ensures store.Valid()
    ensures Waited(yielded, ending, store.log) == Consumed(store.ttl, old(store.log), id, turns)
    ensures Delivered(store.ttl, store.log, id) == Delivered(store.ttl, old(store.log), id) + yielded
    ensures ending.Ended? || (ending.Broken? && ending.code != "stream_idle_timeout" && id in store.audio) ==>
              Delivered(store.ttl, store.log, id) == Appended(store.ttl, store.log, id)
    ensures turns != [] && !ending.Idle? ==> TakeTells(store.View(), id, ending)
  {
    hide Delivered, Appended, After, TakeTells, FreshIds, LastReply, NobodyTakes, ReplyTo;
    yielded := [];
    assert turns[0..] == turns;
    for i := 0 to |turns|
      invariant store.Valid()
      invariant FreshIds(store.log + Visits(turns[i..], Take(id)))
      invariant Delivered(store.ttl, store.log, id) == Delivered(store.ttl, old(store.log), id) + yielded
      invariant var more := Consumed(store.ttl, store.log, id, turns[i..]);
                more.(yielded := yielded + more.yielded) == Consumed(store.ttl, old(store.log), id, turns)
    {
      ghost var rest, log0 := turns[i..], store.log;
      FirstVisit(store.log, rest, Take(id));
      store.Others(turns[i].others);
      QuietTurn(turns, i, id);
      OthersTakeNothing(store.ttl, log0, turns[i].others, id);
      DeliveredGrows(store.ttl, store.log, Event(Take(id), turns[i].now), id);
      ghost var log1 := store.log;
      var reply := store.TakeAudio(id, turns[i].now);
      TakeReply(store.ttl, log1, Event(Take(id), turns[i].now), reply);
      assert rest[0] == turns[i] && rest[1..] == turns[i + 1..];
      if reply.Got? {
        ConsumedMore(yielded, reply.chunk, Consumed(store.ttl, store.log, id, turns[i + 1..]));
        yielded := yielded + [reply.chunk];
      } else if reply.Idle? {
        if !turns[i].woken {
          IdleTells(store.View(), id);
          return yielded, Broken("stream_idle_timeout");
        }
      } else {
        TakeEnds(store.ttl, store.log, id);
        return yielded, reply;
      }
    }
    return yielded, Idle;
  }

  lemma QuietTurn(turns: seq<Turn>, i: nat, id: string)
    requires NobodyTakes(turns, id) && i < |turns|
    ensures forall k :: 0 <= k < |turns[i].others| ==> !IsTake(turns[i].others[k], id)
  {
  }

  /** What the end of a consumer says about the stream it leaves. */
  predicate TakeTells(t: Tables, id: string, ending: Reply) {
    match ending
    case Ended => id in t.audio && t.audio[id] == Audio([], true, "")
    case Broken(code) =>
      if id in t.audio then
        && t.audio[id].chunks == []
        && if code == "stream_idle_timeout" && !t.audio[id].finished then true
           else t.audio[id].finished && t.audio[id].error == code
      else code == "session_not_found"
    case _ => false
  }

  predicate Waits(t: Tables, id: string) {
    id in t.audio && t.audio[id].chunks == [] && !t.audio[id].finished
  }

  lemma IdleTells(t: Tables, id: string)
    requires Waits(t, id)
    ensures TakeTells(t, id, Broken("stream_idle_timeout"))
  {
  }

  lemma TakeReply(ttl: nat, log: seq<Event>, e: Event, reply: Reply)
    requires reply == LastReply(ttl, log + [e]) && e.op.Take?
    ensures reply == ReplyTo(After(ttl, log), e)
    ensures reply.Got? || reply.Idle? || reply.Ended? || reply.Broken?
    ensures reply.Ended? || reply.Broken? ==> TakeTells(After(ttl, log + [e]), e.op.id, reply)
    ensures reply.Idle? ==> Waits(After(ttl, log + [e]), e.op.id)
  {
    assert (log + [e])[..|log|] == log;
  }

  lemma TakeEnds(ttl: nat, log: seq<Event>, id: string)
    requires FreshIds(log) && log != [] && IsTake(log[|log| - 1], id)
    requires LastReply(ttl, log).Ended? || LastReply(ttl, log).Broken?
    ensures LastReply(ttl, log).Ended? || id in After(ttl, log).audio ==>
              Delivered(ttl, log, id) == Appended(ttl, log, id)
  {
    if LastReply(ttl, log).Ended? || id in After(ttl, log).audio {
      EndMeansAll(ttl, log);
    }
  }

  /** How the wait for the first chunk ends; rounds run out with the deadline. */
  function FirstChunkWait(ttl: nat, log: seq<Event>, id: string, turns: seq<Turn>): Option<string>
    decreases |turns|
  {
    if turns == [] then Some("stream_first_chunk_timeout")
    else
      var before := log + turns[0].others;
      var e := Event(Peek(id), turns[0].now);
      var reply := ReplyTo(After(ttl, before), e);
      if reply == Said(true) then None
      else if reply.Broken? then Some(reply.code)
      else if !turns[0].woken then Some("stream_first_chunk_timeout")
      else FirstChunkWait(ttl, before + [e], id, turns[1..])
  }

  /** Waiting for the first chunk ends well only with a chunk in the queue. */
  method WaitForFirstAudioChunk(store: Store, id: string, turns: seq<Turn>) returns (raised: Option<string>)
    requires store.Valid() && FreshIds(store.log + Visits(turns, Peek(id)))
    modifies store
    ensures store.Valid()
    ensures raised == FirstChunkWait(store.ttl, old(store.log), id, turns)
    ensures raised.None? ==> id in store.audio && store.audio[id].chunks != []
    ensures raised == Some("tts_empty_audio") && id in store.audio ==> store.audio[id].chunks == []
    ensures raised.Some? && turns != [] ==> PeekTells(store.View(), id, raised.value)
  {
    hide PeekTells, After, FreshIds, LastReply, ReplyTo;
    assert turns[0..] == turns;
    for i := 0 to |turns|
      invariant store.Valid()
      invariant FreshIds(store.log + Visits(turns[i..], Peek(id)))
      invariant FirstChunkWait(store.ttl, store.log, id, turns[i..]) ==
                FirstChunkWait(store.ttl, old(store.log), id, turns)
      invariant i > 0 ==> PeekTells(store.View(), id, "stream_first_chunk_timeout")
    {
      ghost var rest := turns[i..];
      FirstVisit(store.log, rest, Peek(id));
      store.Others(turns[i].others);
      ghost var log1 := store.log;
      var reply := store.PeekAudio(id, turns[i].now);
      PeekReply(store.ttl, log1, Event(Peek(id), turns[i].now), reply);
      assert rest[0] == turns[i] && rest[1..] == turns[i + 1..];
      if reply == Said(true) {
        return None;
      }
      if reply.Broken? {
        return Some(reply.code);
      }
      if !turns[i].woken {
        return Some("stream_first_chunk_timeout");
      }
    }
    return Some("stream_first_chunk_timeout");
  }

  /** What a wait that failed says about the stream. */
  predicate PeekTells(t: Tables, id: string, code: string) {
    if id !in t.audio then code == "session_not_found"
    else
      && t.audio[id].chunks == []
      && if t.audio[id].finished then code == (if t.audio[id].error != "" then t.audio[id].error else "tts_empty_audio")
         else code == "stream_first_chunk_timeout"
  }

  lemma PeekReply(ttl: nat, log: seq<Event>, e: Event, reply: Reply)
    requires reply == LastReply(ttl, log + [e]) && e.op.Peek?
    ensures reply == ReplyTo(After(ttl, log), e) && (reply == Said(true) || reply.Idle? || reply.Broken?)
    ensures var t, id := After(ttl, log + [e]), e.op.id;
            && (reply == Said(true) ==> id in t.audio && t.audio[id].chunks != [])
            && (reply.Broken? && id in t.audio ==> t.audio[id].chunks == [])
            && (reply.Broken? ==> PeekTells(t, id, reply.code))
            && (reply.Idle? ==> PeekTells(t, id, "stream_first_chunk_timeout"))
  {
    assert (log + [e])[..|log|] == log;
  }
}
