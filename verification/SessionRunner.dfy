/** One run of a voice session against the shared store, with other threads at work between any
    two of its visits to the store. */
module SessionRunner {
  import opened Bytes
  import opened SessionStore
  import F = FramedV1
  import T = TextSegmentation

  // ---------------------------------------------------------------- what is watched

  /** What the rest of the system can see of a session that is alive: when it expires, its
      input, the statuses it has had, the chunks of its audio stream and the stream's end. */
  datatype Watch = Watch(
    deadline: int, wav: string, question: string, history: seq<Status>, code: string,
    audio: seq<Chunk>, finished: bool, error: string)

  /** The distinct statuses a session has had, in order. */
  function Statuses(ttl: nat, log: seq<Event>, id: string): seq<Status>
    decreases |log|
  {
    if log == [] then []
    else
      var earlier, t := Statuses(ttl, log[..|log| - 1], id), After(ttl, log);
      if id in t.sessions then Entered(earlier, t.sessions[id].status) else earlier
  }

  function Entered(history: seq<Status>, s: Status): seq<Status> {
    if history != [] && history[|history| - 1] == s then history else history + [s]
  }

  ghost predicate Shows(t: Tables, id: string, w: Watch) {
    && id in t.sessions && id in t.audio && w.history != []
    && t.sessions[id].expiresAt == w.deadline
    && t.sessions[id].wav == w.wav && t.sessions[id].question == w.question
    && t.sessions[id].status == w.history[|w.history| - 1] && t.sessions[id].errorCode == w.code
    && t.audio[id].finished == w.finished && t.audio[id].error == w.error
  }

  ghost predicate Stands(ttl: nat, log: seq<Event>, id: string, w: Watch) {
    Shows(After(ttl, log), id, w) && Statuses(ttl, log, id) == w.history && Appended(ttl, log, id) == w.audio
  }

  function Seen(w: Watch, op: Op): Watch {
    match op
    case Update(_, c) =>
      w.(question := Or(c.question, w.question),
         history := if c.status.Some? then Entered(w.history, c.status.value) else w.history)
    case MarkDone(_, _, _) => w.(history := Entered(w.history, Done))
    case MarkFailed(_, code) => w.(history := Entered(w.history, Failed), code := code)
    case Append(_, chunk) => w.(audio := if chunk == [] then w.audio else w.audio + [chunk])
    case Finish(_) => w.(finished := true)
    case Fail(_, code) => w.(finished := true, error := code)
    case _ => w
  }

  function WatchAfter(w: Watch, op: Op, id: string): Watch {
    if op.id == id then Seen(w, op) else w
  }

  predicate InTime(e: Event, id: string, deadline: int) {
    e.op.id == id ==> e.now < deadline && !e.op.Create?
  }

  lemma NextShows(ttl: nat, t: Tables, e: Event, id: string, w: Watch)
    requires Shows(t, id, w) && InTime(e, id, w.deadline)
    ensures Shows(Next(ttl, t, e), id, WatchAfter(w, e.op, id))
    ensures WatchAfter(w, e.op, id).history ==
            Entered(w.history, WatchAfter(w, e.op, id).history[|WatchAfter(w, e.op, id).history| - 1])
    ensures WatchAfter(w, e.op, id).audio == w.audio + AppendedBy(t, e, id)
  {
    match e.op
    case Create(_, _, _) =>
    case Update(_, _) =>
    case MarkDone(_, _, _) =>
    case MarkFailed(_, _) =>
    case Append(_, _) =>
    case Finish(_) =>
    case Fail(_, _) =>
    case Take(_) =>
    case _ =>
  }

  lemma Watched(ttl: nat, log: seq<Event>, e: Event, id: string, w: Watch)
    requires Stands(ttl, log, id, w) && InTime(e, id, w.deadline)
    ensures Stands(ttl, log + [e], id, WatchAfter(w, e.op, id))
  {
    NextShows(ttl, After(ttl, log), e, id, w);
    hide Next, WatchAfter, AppendedBy;
    assert (log + [e])[..|log|] == log;
  }

  /** What other threads do to a session in time: they read it, claim its audio and consume it.
      Other sessions they may change as they like. */
  predicate Harmless(e: Event, id: string, deadline: int) {
    e.op.id == id ==> e.now < deadline && (e.op.Get? || e.op.Claim? || e.op.Peek? || e.op.Take?)
  }

  lemma {:induction false} OthersChangeNothing(ttl: nat, log: seq<Event>, events: seq<Event>, id: string, w: Watch)
    requires Stands(ttl, log, id, w)
    requires forall i :: 0 <= i < |events| ==> Harmless(events[i], id, w.deadline)
    ensures Stands(ttl, log + events, id, w)
    decreases |events|
  {
    hide Stands;
    if events == [] {
      assert log + events == log;
    } else {
      var n := |events| - 1;
      assert log + events == (log + events[..n]) + [events[n]];
      OthersChangeNothing(ttl, log, events[..n], id, w);
      Watched(ttl, log + events[..n], events[n], id, w);
    }
  }

  // ---------------------------------------------------------------- providers

  /** What a provider of audio may raise: an error of the streaming speech engine, a value error,
      or anything else. */
  datatype Exception = TtsError(code: string) | ValueError(text: string) | Other

  /** The three places that play audio; each catches other exceptions. */
  datatype Handler = StaticAudio | LiveSpeech | FileSpeech

  predicate Catches(h: Handler, e: Exception) {
    match e
    case TtsError(_) => !h.StaticAudio?
    case ValueError(_) => !h.LiveSpeech?
    case Other => false
  }

  /** The error code an exception leaves behind. */
  function CodeOf(e: Exception): string {
    match e
    case TtsError(code) => code
    case ValueError(text) => text
    case Other => ""
  }

  datatype Playback = Playback(chunks: seq<Chunk>, raised: Option<Exception>)

  datatype Llm = Llm(chunks: seq<string>, raises: bool)

  datatype Skill = Skill(answer: string, stream: Option<Llm>)

  /** What comes out of the event queue of the streaming engine: audio, a failure of the engine or
      of the thread that feeds it, the end, or anything else. */
  datatype TtsEvent = Delta(audio: Chunk) | Failure(code: string) | ResponseDone | OtherEvent

  /** The streaming speech engine: what it raises when it refuses to start, the events it causes
      when given some segments, after how many of them the failure of a language model is queued,
      and how many chunks of the answer have arrived by the time the engine is done. */
  datatype Engine = Engine(
    refuses: Option<Exception>, events: seq<string> -> seq<TtsEvent>, failAt: nat, arrived: nat)

  /** What the providers do in this run: speech recognition, the skill (None: it raised), the
      prepared audio of the skill's plan if all of it is there, the two health checks of the
      streaming speech engine that decide the path, and the two speech engines. */
  datatype Providers = Providers(
    asrError: string, asrText: string, normalize: string -> string,
    skill: Option<Skill>,
    prepared: Option<Playback>,
    healthyBefore: bool, healthyAfter: bool,
    live: Engine,
    speech: (seq<string>, string) -> Playback,
    limits: T.Config)

  // ---------------------------------------------------------------- the streaming engine

  const LLM_FAILED := "llm_request_failed"

  function UpTo<A>(s: seq<A>, n: nat): (r: seq<A>)
    ensures r <= s && |r| == Min(n, |s|)
  {
    if n < |s| then s[..n] else s
  }

  /** The event queue: the failure of the language model goes through it like the events of the
      engine itself. */
  function Queued(e: Engine, segments: seq<string>, failed: bool): seq<TtsEvent> {
    var own := e.events(segments);
    if failed then UpTo(own, e.failAt) + [Failure(LLM_FAILED)] + own[|UpTo(own, e.failAt)|..] else own
  }

  /** What is played from the event queue; a queue that stays empty too long raises an exception
      of its own. */
  function Heard(events: seq<TtsEvent>): Playback {
    if events == [] then Playback([], Some(Other))
    else
      match events[0]
      case Delta(audio) =>
        var later := Heard(events[1..]);
        Playback([audio] + later.chunks, later.raised)
      case Failure(code) => Playback([], Some(TtsError(code)))
      case ResponseDone => Playback([], None)
      case OtherEvent => Heard(events[1..])
  }

  lemma HeardAt(events: seq<TtsEvent>, i: nat, chunks: seq<Chunk>)
    requires i < |events|
    ensures var event, now, later := events[i], Heard(events[i..]), Heard(events[i + 1..]);
            match event
            case Delta(audio) =>
              now.raised == later.raised && chunks + now.chunks == (chunks + [audio]) + later.chunks
            case Failure(code) => now == Playback([], Some(TtsError(code)))
            case ResponseDone => now == Playback([], None)
            case OtherEvent => now == later
  {
    assert events[i..][1..] == events[i + 1..];
  }

  /** The loop that takes events off the queue. */
  method StreamTextChunks(events: seq<TtsEvent>) returns (p: Playback)
    ensures p == Heard(events)
  {
    hide Heard;
    var chunks := [];
    assert events[0..] == events && chunks + Heard(events).chunks == Heard(events).chunks;
    for i := 0 to |events|
      invariant Heard(events) == Playback(chunks + Heard(events[i..]).chunks, Heard(events[i..]).raised)
    {
      HeardAt(events, i, chunks);
      match events[i] {
        case Delta(audio) => chunks := chunks + [audio];
        case Failure(code) =>
          assert chunks + [] == chunks;
          return Playback(chunks, Some(TtsError(code)));
        case ResponseDone =>
          assert chunks + [] == chunks;
          return Playback(chunks, None);
        case OtherEvent =>
      }
    }
    NothingHeard();
    assert events[|events|..] == [] && chunks + [] == chunks;
    return Playback(chunks, Some(Other));
  }

  lemma NothingHeard()
    ensures Heard([]) == Playback([], Some(Other))
  {
  }

  /** A failure in the queue is heard unless the engine has ended the stream before. */
  lemma {:induction false} HeardUpToFailure(before: seq<TtsEvent>, code: string, after: seq<TtsEvent>)
    ensures var h := Heard(before);
            Heard(before + [Failure(code)] + after) ==
            if h.raised == Some(Other) then Playback(h.chunks, Some(TtsError(code))) else h
  {
    var all := before + [Failure(code)] + after;
    if before != [] {
      assert all[1..] == before[1..] + [Failure(code)] + after;
      HeardUpToFailure(before[1..], code, after);
    }
  }

  function Sounds(events: seq<TtsEvent>): seq<Chunk> {
    if events == [] then []
    else (if events[0].Delta? then [events[0].audio] else []) + Sounds(events[1..])
  }

  /** The queue is played up to its first failure or end, and all the audio before that. */
  lemma {:induction false} HeardMeans(events: seq<TtsEvent>) returns (n: nat)
    ensures n <= |events| && forall i :: 0 <= i < n ==> events[i].Delta? || events[i].OtherEvent?
    ensures Heard(events).chunks == Sounds(events[..n])
    ensures n == |events| ==> Heard(events).raised == Some(Other)
    ensures n < |events| ==>
              || (events[n].ResponseDone? && Heard(events).raised == None)
              || (events[n].Failure? && Heard(events).raised == Some(TtsError(events[n].code)))
  {
    if events == [] || events[0].Failure? || events[0].ResponseDone? {
      n := 0;
    } else {
      n := HeardMeans(events[1..]);
      n := n + 1;
      assert events[..n][1..] == events[1..][..n - 1];
      assert forall i :: 1 <= i < n ==> events[i] == events[1..][i - 1];
    }
  }

  /** What the engine is given: of an answer that breaks off, only the segments already cut. */
  function Spoken(p: Providers, llm: Llm): seq<string> {
    if llm.raises then T.Fed(llm.chunks, p.limits).ready else T.Said(llm.chunks, p.limits)
  }

  function LivePlayback(p: Providers, llm: Llm): Playback {
    if p.live.refuses.Some? then Playback([], p.live.refuses)
    else Heard(Queued(p.live, Spoken(p, llm), llm.raises))
  }

  function LeftTrim(s: string): string {
    if s != "" && T.IsSpace(s[0]) then LeftTrim(s[1..]) else s
  }

  function RightTrim(s: string): string {
    if s != "" && T.IsSpace(s[|s| - 1]) then RightTrim(s[..|s| - 1]) else s
  }

  function Trim(s: string): string {
    RightTrim(LeftTrim(s))
  }

  /** The stream of answer text: the skill's own, or its answer as a single chunk. */
  function AnswerStream(s: Skill): Llm {
    if s.stream.Some? then s.stream.value
    else if Trim(s.answer) != "" then Llm([Trim(s.answer)], false)
    else Llm([], false)
  }

  /** How a run ends: without input, completed, with an error code, or by an exception that
      leaves the runner's thread. */
  datatype Ending = Missing | Completed | Aborted(code: string) | Escaped

  /** How a run ends: its outcome, and the audio it has put into the stream. */
  datatype Verdict = Verdict(ending: Ending, audio: seq<Chunk>)

  /** The course of a run: without input, ended before any audio, or a playback that is passed on
      until it ends or raises; then `otherwise` decides. */
  datatype Course = NoInput | Refused(code: string) | Plays(handler: Handler, playback: Playback, otherwise: Ending)

  /** The course of an answer, by the path its audio takes. */
  function AnswerCourse(p: Providers, s: Skill): Course {
    var llm := AnswerStream(s);
    var text := Trim(Concat(llm.chunks));
    if p.prepared.Some? then
      var audible := F.NonEmpty(p.prepared.value.chunks) != [];
      Plays(StaticAudio, p.prepared.value, if audible then Completed else Aborted("tts_empty_audio"))
    else if !p.healthyBefore && llm.raises then Refused(LLM_FAILED)
    else if !p.healthyBefore && text == "" then Refused("llm_empty_text")
    else if p.healthyAfter then
      // A stream already read for the other engine has nothing left.
      LiveCourse(p, if p.healthyBefore then llm else Llm([], false))
    else if p.healthyBefore then Plays(FileSpeech, p.speech([], Trim(s.answer)), Completed)
    else Plays(FileSpeech, p.speech(T.Spoken(T.Stripped(Concat(llm.chunks)), p.limits), text), Completed)
  }

  /** The streaming engine speaks the answer while it is being written. */
  function LiveCourse(p: Providers, llm: Llm): Course {
    var empty := Trim(Concat(UpTo(llm.chunks, p.live.arrived))) == "";
    Plays(LiveSpeech, LivePlayback(p, llm), if empty then Aborted("llm_empty_text") else Completed)
  }

  /** The course of a session with input; `given` is a question that needs no recognition. */
  function InputCourse(p: Providers, given: string): Course {
    if given == "" && p.asrError != "" then Refused(p.asrError)
    else if given == "" && p.asrText == "" then Refused("asr_empty_text")
    else if p.skill.None? then Refused("skill_route_failed")
    else AnswerCourse(p, p.skill.value)
  }

  function SessionCourse(p: Providers, w: Watch): Course {
    if HasInput(w) then InputCourse(p, Trim(w.question)) else NoInput
  }

  function Judged(c: Course): Verdict {
    match c
    case NoInput => Verdict(Missing, [])
    case Refused(code) => Verdict(Aborted(code), [])
    case Plays(handler, playback, otherwise) =>
      Verdict(if playback.raised.None? then otherwise
              else if Catches(handler, playback.raised.value) then Aborted(CodeOf(playback.raised.value))
              else Escaped,
              F.NonEmpty(playback.chunks))
  }

  predicate HasInput(w: Watch) {
    w.wav != "" || Trim(w.question) != ""
  }

  /** The question the session keeps: recognised or given, and normalised. */
  function QuestionAfter(p: Providers, w: Watch): string {
    var given := Trim(w.question);
    if !HasInput(w) || (given == "" && (p.asrError != "" || p.asrText == "")) then w.question
    else p.normalize(if given != "" then given else p.asrText)
  }

  // ---------------------------------------------------------------- the runner

  function Interludes(script: seq<Turn>): seq<Event> {
    if script == [] then [] else script[0].others + Interludes(script[1..])
  }

  lemma Insert(before: seq<Event>, e: Event, after: seq<Event>)
    requires FreshIds(before + after) && !e.op.Create?
    ensures FreshIds((before + [e]) + after)
  {
    var short, long := before + after, (before + [e]) + after;
    forall i | 0 <= i < |long| && long[i].op.Create? ensures Unused(long[..i], long[i].op.id) {
      var k := if i < |before| then i else i - 1;
      assert long[i] == short[k] && Unused(short[..k], short[k].op.id);
      forall j | 0 <= j < i ensures !(long[j].op.Create? && long[j].op.id == long[i].op.id) {
        if j != |before| {
          assert long[j] == short[..k][if j < |before| then j else j - 1];
        }
      }
    }
  }

  lemma FreshUpTo(a: seq<Event>, b: seq<Event>)
    requires FreshIds(a + b)
    ensures FreshIds(a)
  {
    forall i | 0 <= i < |a| && a[i].op.Create? ensures Unused(a[..i], a[i].op.id) {
      assert a[..i] == (a + b)[..i] && a[i] == (a + b)[i];
    }
  }

  /** The runner's thread: its session, and what happens around its visits to the store. */
  class Runner {
    const store: Store
    const id: string
    const script: seq<Turn>
    var k: nat
    var now: int

    constructor (store: Store, id: string, script: seq<Turn>, now: int)
      ensures this.store == store && this.id == id && this.script == script && k == 0 && this.now == now
    {
      this.store, this.id, this.script, this.k, this.now := store, id, script, 0, now;
    }

    ghost predicate Ready(w: Watch)
      reads this, store
    {
      && store.Valid() && k <= |script| && now < w.deadline
      && Stands(store.ttl, store.log, id, w)
      && FreshIds(store.log + Interludes(script[k..]))
      && forall i :: 0 <= i < |script| ==> TurnInTime(script[i], w.deadline)
    }

    ghost predicate TurnInTime(t: Turn, deadline: int) {
      t.now < deadline && forall i :: 0 <= i < |t.others| ==> Harmless(t.others[i], id, deadline)
    }

    /** Wait for the lock while other threads use it. */
    method Turns(ghost w: Watch)
      requires Ready(w)
      modifies this, store
      ensures Ready(w)
    {
      hide Stands, FreshIds, Harmless;
      if k < |script| {
        ghost var rest := script[k..];
        assert rest[0] == script[k] && rest[1..] == script[k + 1..];
        assert store.log + Interludes(rest) == (store.log + rest[0].others) + Interludes(rest[1..]);
        FreshUpTo(store.log + rest[0].others, Interludes(rest[1..]));
        OthersChangeNothing(store.ttl, store.log, script[k].others, id, w);
        store.Others(script[k].others);
        now := script[k].now;
        k := k + 1;
      }
    }

    lemma AfterVisit(log: seq<Event>, op: Op, w: Watch)
      requires op.id == id && !op.Create? && now < w.deadline && k <= |script|
      requires Stands(store.ttl, log, id, w) && FreshIds(log + Interludes(script[k..]))
      ensures Stands(store.ttl, log + [Event(op, now)], id, Seen(w, op))
      ensures FreshIds((log + [Event(op, now)]) + Interludes(script[k..]))
    {
      Watched(store.ttl, log, Event(op, now), id, w);
      Insert(log, Event(op, now), Interludes(script[k..]));
    }

    method Update(changes: Changes, ghost w: Watch)
      requires Ready(w)
      modifies this, store
      ensures Ready(Seen(w, SessionStore.Update(id, changes)))
    {
      hide Stands, FreshIds, Seen;
      Turns(w);
      AfterVisit(store.log, SessionStore.Update(id, changes), w);
      SeenKeeps(w, SessionStore.Update(id, changes));
      var _ := store.UpdateSession(id, changes, now);
    }

    method Read(ghost w: Watch) returns (session: Session)
      requires Ready(w)
      modifies this, store
      ensures Ready(w) && session.wav == w.wav && session.question == w.question
    {
      hide FreshIds;
      Turns(w);
      AfterVisit(store.log, Get(id), w);
      ghost var before := store.log;
      var payload := store.GetSession(id, now);
      assert (before + [Event(Get(id), now)])[..|before|] == before;
      session := payload.value;
    }

    method Push(chunk: Chunk, ghost w: Watch)
      requires Ready(w)
      modifies this, store
      ensures Ready(Seen(w, Append(id, chunk)))
    {
      hide Stands, FreshIds;
      Turns(w);
      AfterVisit(store.log, Append(id, chunk), w);
      var _ := store.AppendAudioChunk(id, chunk, now);
    }

    method Fail(code: string, ghost w: Watch)
      requires Ready(w)
      modifies this, store
      ensures Ready(Seen(w, MarkFailed(id, code)))
    {
      hide Stands, FreshIds;
      Turns(w);
      AfterVisit(store.log, MarkFailed(id, code), w);
      var _ := store.SetFailed(id, code, now);
    }

    /** The two calls every failing branch makes. */
    method Abort(code: string, ghost w: Watch)
      requires Ready(w)
      modifies this, store
      ensures Ready(Seen(Seen(w, MarkFailed(id, code)), SessionStore.Fail(id, code)))
    {
      hide Stands, FreshIds;
      Fail(code, w);
      ghost var w1 := Seen(w, MarkFailed(id, code));
      Turns(w1);
      AfterVisit(store.log, SessionStore.Fail(id, code), w1);
      var _ := store.FailAudio(id, code, now);
    }

    method EndAudio(ghost w: Watch)
      requires Ready(w)
      modifies this, store
      ensures Ready(Seen(w, Finish(id)))
    {
      hide Stands, FreshIds;
      Turns(w);
      AfterVisit(store.log, Finish(id), w);
      var _ := store.FinishAudio(id, now);
    }

    method Complete(answer: string, ghost w: Watch)
      requires Ready(w)
      modifies this, store
      ensures Ready(Seen(Seen(w, Finish(id)), MarkDone(id, "completed_answer", answer)))
    {
      hide Stands, FreshIds;
      EndAudio(w);
      ghost var w1 := Seen(w, Finish(id));
      Update(NO_CHANGE, w1);
      Turns(w1);
      AfterVisit(store.log, MarkDone(id, "completed_answer", answer), w1);
      var _ := store.SetDone(id, "completed_answer", answer, now);
    }
  }

  const NO_CHANGE := Changes(None, None, None, None, None)

  lemma SeenKeeps(w: Watch, op: Op)
    ensures Seen(w, op).deadline == w.deadline
  {
  }

  // ---------------------------------------------------------------- the run

  /** Put a playback into the session's audio; whether any chunk came before it ended. */
  method Stream(r: Runner, p: Playback, ghost w: Watch) returns (started: bool)
    requires r.Ready(w)
    modifies r, r.store
    ensures r.Ready(w.(audio := w.audio + F.NonEmpty(p.chunks)))
    ensures started <==> F.NonEmpty(p.chunks) != []
  {
    hide r.Ready, F.NonEmpty;
    started := false;
    F.NothingNonEmpty();
    assert w.audio + [] == w.audio;
    for i := 0 to |p.chunks|
      invariant r.Ready(w.(audio := w.audio + F.NonEmpty(p.chunks[..i])))
      invariant started <==> F.NonEmpty(p.chunks[..i]) != []
    {
      ghost var now := w.(audio := w.audio + F.NonEmpty(p.chunks[..i]));
      F.NonEmptyUpTo(p.chunks, i);
      assert F.NonEmpty(p.chunks[..i]) + [] == F.NonEmpty(p.chunks[..i]);
      if p.chunks[i] != [] {
        if !started {
          r.Update(NO_CHANGE.(step := Some("streaming")), now);
          r.Update(NO_CHANGE.(reason := Some("completed_answer")), now);
          started := true;
        }
        r.Push(p.chunks[i], now);
        assert now.audio + [p.chunks[i]] == w.audio + (F.NonEmpty(p.chunks[..i]) + [p.chunks[i]]);
      }
    }
    assert p.chunks[..|p.chunks|] == p.chunks;
  }

  ghost predicate InProgress(w: Watch) {
    w.history == [Accepted, Running] && !w.finished && w.error == "" && w.code == ""
  }

  /** What is seen of a session once its run is over. */
  function Final(w: Watch, ending: Ending): Watch {
    match ending
    case Missing => w.(history := [Accepted, Failed], code := "asr_input_missing")
    case Completed => w.(history := [Accepted, Running, Done], finished := true)
    case Aborted(code) =>
      w.(history := [Accepted, Running, Failed], code := code, finished := true, error := code)
    case Escaped => w.(history := [Accepted, Running])
  }

  method Abort(r: Runner, code: string, ghost w: Watch) returns (ending: Ending)
    requires r.Ready(w) && InProgress(w)
    modifies r, r.store
    ensures ending == Aborted(code) && r.Ready(Final(w, ending))
  {
    hide r.Ready;
    assert Entered(w.history, Failed) == [Accepted, Running, Failed];
    r.Abort(code, w);
    return Aborted(code);
  }

  method Complete(r: Runner, answer: string, ghost w: Watch) returns (ending: Ending)
    requires r.Ready(w) && InProgress(w)
    modifies r, r.store
    ensures ending == Completed && r.Ready(Final(w, ending))
  {
    hide r.Ready;
    assert Entered(w.history, Done) == [Accepted, Running, Done];
    r.Update(NO_CHANGE, w);
    r.Complete(answer, w);
    return Completed;
  }

  /** What is seen once a run has ended this way. */
  function Outcome(w: Watch, v: Verdict): Watch {
    Final(w.(audio := w.audio + v.audio), v.ending)
  }

  /** Play, then end: with the playback's exception if it is caught, with an empty playback's own
      error if there is one, with `refusal` if given, and otherwise well. */
  method PlayAndEnd(r: Runner, handler: Handler, p: Playback, whenEmpty: Option<string>, refusal: Option<string>,
                    answer: string, ghost w: Watch)
    returns (v: Verdict)
    requires r.Ready(w) && InProgress(w)
    modifies r, r.store
    ensures r.Ready(Outcome(w, v))
    ensures v == Judged(Plays(handler, p,
                              if whenEmpty.Some? && F.NonEmpty(p.chunks) == [] then Aborted(whenEmpty.value)
                              else if refusal.Some? then Aborted(refusal.value) else Completed))
  {
    hide r.Ready, F.NonEmpty;
    var started := Stream(r, p, w);
    ghost var w1 := w.(audio := w.audio + F.NonEmpty(p.chunks));
    var ending;
    if p.raised.Some? {
      if !Catches(handler, p.raised.value) {
        assert Final(w1, Escaped) == w1;
        return Verdict(Escaped, F.NonEmpty(p.chunks));
      }
      ending := Abort(r, CodeOf(p.raised.value), w1);
    } else if whenEmpty.Some? && !started {
      ending := Abort(r, whenEmpty.value, w1);
    } else if refusal.Some? {
      ending := Abort(r, refusal.value, w1);
    } else {
      ending := Complete(r, answer, w1);
    }
    return Verdict(ending, F.NonEmpty(p.chunks));
  }

  /** The engine is fed by a thread of its own, which hands the failure of the language model
      over through the event queue. */
  method AnswerLive(r: Runner, p: Providers, llm: Llm, ghost w: Watch) returns (v: Verdict)
    requires r.Ready(w) && InProgress(w)
    modifies r, r.store
    ensures r.Ready(Outcome(w, v)) && v == Judged(LiveCourse(p, llm))
  {
    hide r.Ready, Outcome, Trim, F.NonEmpty, Heard, Judged;
    r.Update(NO_CHANGE.(step := Some("tts")), w);
    var playback := Playback([], p.live.refuses);
    if p.live.refuses.None? {
      var segments, _ := T.SpeakSegments(llm.chunks, p.limits, llm.raises);
      playback := StreamTextChunks(Queued(p.live, segments, llm.raises));
    }
    var answer := Trim(Concat(UpTo(llm.chunks, p.live.arrived)));
    v := PlayAndEnd(r, LiveSpeech, playback, None, if answer == "" then Some("llm_empty_text") else None, answer, w);
  }

  /** An end before any audio. */
  method Refuse(r: Runner, code: string, ghost w: Watch) returns (v: Verdict)
    requires r.Ready(w) && InProgress(w)
    modifies r, r.store
    ensures v == Judged(Refused(code)) && r.Ready(Outcome(w, v))
  {
    assert w.audio + [] == w.audio;
    var ending := Abort(r, code, w);
    return Verdict(ending, []);
  }

  method Answer(r: Runner, p: Providers, s: Skill, ghost w: Watch) returns (v: Verdict)
    requires r.Ready(w) && InProgress(w)
    modifies r, r.store
    ensures r.Ready(Outcome(w, v)) && v == Judged(AnswerCourse(p, s))
  {
    hide r.Ready, Outcome, Trim, F.NonEmpty, LiveCourse, Judged;
    r.Update(NO_CHANGE.(step := Some("llm")), w);
    var answer, segments, llm := Trim(s.answer), [], AnswerStream(s);
    if p.prepared.None? && !p.healthyBefore {
      if llm.raises {
        v := Refuse(r, LLM_FAILED, w);
        return;
      }
      segments := T.CollectSegments(llm.chunks, p.limits);
      answer := Trim(Concat(llm.chunks));
      if answer == "" {
        v := Refuse(r, "llm_empty_text", w);
        return;
      }
      llm := Llm([], false);
    }
    r.Update(NO_CHANGE.(step := Some("tts"), answer := Some(answer)), w);
    if p.prepared.Some? {
      v := PlayAndEnd(r, StaticAudio, p.prepared.value, Some("tts_empty_audio"), None, answer, w);
    } else if p.healthyAfter {
      v := AnswerLive(r, p, llm, w);
    } else {
      v := PlayAndEnd(r, FileSpeech, p.speech(segments, answer), None, None, answer, w);
    }
  }

  /** From the question or the recording to the end of the answer. */
  method AnswerInput(r: Runner, p: Providers, given: string, ghost w: Watch) returns (v: Verdict, ghost kept: string)
    requires r.Ready(w) && InProgress(w)
    modifies r, r.store
    ensures v == Judged(InputCourse(p, given))
    ensures kept == if given == "" && (p.asrError != "" || p.asrText == "") then w.question
                    else p.normalize(if given != "" then given else p.asrText)
    ensures r.Ready(Outcome(w.(question := kept), v))
  {
    hide AnswerCourse, r.Ready, Outcome, Judged;
    var question := given;
    if given == "" {
      if p.asrError != "" || p.asrText == "" {
        v := Refuse(r, if p.asrError != "" then p.asrError else "asr_empty_text", w);
        return v, w.question;
      }
      question := p.asrText;
    }
    r.Update(NO_CHANGE.(question := Some(p.normalize(question)), step := Some("retrieval")), w);
    kept := p.normalize(question);
    if p.skill.None? {
      v := Refuse(r, "skill_route_failed", w.(question := kept));
    } else {
      v := Answer(r, p, p.skill.value, w.(question := kept));
    }
  }

  /** `run_stub_realtime_session` on a session that does not expire meanwhile. With input, the
      session ends in exactly one of done and failed, having been nothing but accepted and
      running before, its audio stream holds what the provider played, and ends to match,
      unless an exception leaves the thread; without input it fails and the audio stream is
      left open. */
  method RunSession(r: Runner, p: Providers, ghost w: Watch) returns (v: Verdict)
    requires r.Ready(w) && w == Watch(w.deadline, w.wav, w.question, [Accepted], "", [], false, "")
    modifies r, r.store
    ensures v == Judged(SessionCourse(p, w))
    ensures r.Ready(Outcome(w.(question := QuestionAfter(p, w)), v))
    ensures v.ending.Missing? <==> w.wav == "" && Trim(w.question) == ""
  {
    hide InputCourse, Trim, r.Ready;
    assert Entered(w.history, Running) == [Accepted, Running] && Entered(w.history, Failed) == [Accepted, Failed];
    var session := r.Read(w);
    var given := Trim(session.question);
    if session.wav == "" && given == "" {
      r.Fail("asr_input_missing", w);
      assert w.audio + [] == w.audio;
      return Verdict(Missing, []);
    }
    r.Update(NO_CHANGE.(status := Some(Running), step := Some(if given != "" then "retrieval" else "asr")), w);
    ghost var w1 := w.(history := [Accepted, Running]);
    ghost var kept;
    v, kept := AnswerInput(r, p, given, w1);
    InputIsNotMissing(p, given);
    SameEnd(w, w1, kept, v);
  }

  /** What the outcome of a session consists of. */
  lemma OutcomeMeans(p: Providers, w: Watch)
    requires w == Watch(w.deadline, w.wav, w.question, [Accepted], "", [], false, "")
    ensures var v := Judged(SessionCourse(p, w));
            var kept := w.(question := QuestionAfter(p, w), audio := v.audio);
            Outcome(w.(question := QuestionAfter(p, w)), v) ==
            match v.ending
            case Missing => w.(history := [Accepted, Failed], code := "asr_input_missing")
            case Completed => kept.(history := [Accepted, Running, Done], finished := true)
            case Aborted(code) =>
              kept.(history := [Accepted, Running, Failed], code := code, finished := true, error := code)
            case Escaped => kept.(history := [Accepted, Running])
  {
    hide InputCourse, Trim;
    InputIsNotMissing(p, Trim(w.question));
    assert w.audio + Judged(SessionCourse(p, w)).audio == Judged(SessionCourse(p, w)).audio;
  }

  lemma InputIsNotMissing(p: Providers, given: string)
    ensures !Judged(InputCourse(p, given)).ending.Missing?
  {
    hide Trim, F.NonEmpty, Heard;
  }

  lemma SameEnd(w: Watch, w1: Watch, kept: string, v: Verdict)
    requires w1 == w.(history := w1.history) && !v.ending.Missing?
    ensures Outcome(w1.(question := kept), v) == Outcome(w.(question := kept), v)
  {
  }

  /** Once over, nothing the other threads do changes the outcome. */
  lemma OutcomeStays(ttl: nat, log: seq<Event>, events: seq<Event>, id: string, w: Watch, ending: Ending)
    requires Stands(ttl, log, id, Final(w, ending))
    requires forall i :: 0 <= i < |events| ==> Harmless(events[i], id, w.deadline)
    ensures Stands(ttl, log + events, id, Final(w, ending))
    ensures After(ttl, log + events).sessions[id].status ==
            if ending.Completed? then Done else if ending.Escaped? then Running else Failed
  {
    OthersChangeNothing(ttl, log, events, id, Final(w, ending));
  }

  // ---------------------------------------------------------------- when session and audio agree

  /** The session is over and its audio stream says so: finished without an error exactly when
      done, finished with the session's own error code when failed. */
  predicate EndsToMatch(w: Watch) {
    && w.history != [] && w.finished
    && var last := w.history[|w.history| - 1];
       && (last == Done || last == Failed)
       && (w.error == "" <==> last == Done)
       && (last == Failed ==> w.error == w.code)
  }

  /** Session and audio end to match exactly if there is input and the playback this run comes
      to, if any, raises nothing but exceptions that are caught there and have a text. */
  lemma EndsToMatchExactlyWhen(p: Providers, w: Watch)
    requires w == Watch(w.deadline, w.wav, w.question, [Accepted], "", [], false, "")
    ensures EndsToMatch(Outcome(w.(question := QuestionAfter(p, w)), Judged(SessionCourse(p, w)))) <==>
            && HasInput(w)
            && var c := SessionCourse(p, w);
               c.Plays? && c.playback.raised.Some? ==>
                 Catches(c.handler, c.playback.raised.value) && CodeOf(c.playback.raised.value) != ""
  {
    hide Trim, F.NonEmpty, Heard, HasInput, QuestionAfter;
    var c, q := SessionCourse(p, w), w.(question := QuestionAfter(p, w));
    assert c.Refused? ==> c.code != "";
    assert c.Plays? ==> c.otherwise == Completed || (c.otherwise.Aborted? && c.otherwise.code != "");
    assert c.NoInput? <==> !HasInput(w);
    hide SessionCourse;
    var v := Judged(c);
    assert Outcome(q, v).finished <==> v.ending.Completed? || v.ending.Aborted?;
  }

  predicate Nameless(raised: Option<Exception>) {
    raised == Some(TtsError("")) || raised == Some(ValueError(""))
  }

  /** The audio of a failed session ends as if nothing had happened exactly if the playback the
      inputs lead to raises a caught exception with an empty text. */
  lemma CleanEndExactlyWhen(p: Providers, w: Watch)
    ensures Judged(SessionCourse(p, w)).ending == Aborted("") <==>
            && HasInput(w)
            && (Trim(w.question) != "" || (p.asrError == "" && p.asrText != ""))
            && p.skill.Some?
            && var llm, answer := AnswerStream(p.skill.value), Trim(p.skill.value.answer);
               var text := Trim(Concat(llm.chunks));
               if p.prepared.Some? then p.prepared.value.raised == Some(ValueError(""))
               else if p.healthyBefore && p.healthyAfter then LivePlayback(p, llm).raised == Some(TtsError(""))
               else if p.healthyBefore then Nameless(p.speech([], answer).raised)
               else
                 && !llm.raises && text != ""
                 && if p.healthyAfter then LivePlayback(p, Llm([], false)).raised == Some(TtsError(""))
                    else Nameless(p.speech(T.Spoken(T.Stripped(Concat(llm.chunks)), p.limits), text).raised)
  {
    hide Trim, F.NonEmpty, Heard, AnswerStream, LivePlayback;
    var c := SessionCourse(p, w);
    assert c.Refused? ==> c.code != "";
    assert c.Plays? ==> c.otherwise == Completed || (c.otherwise.Aborted? && c.otherwise.code != "");
  }

  /** The audio stream of a done session is what the provider played, and the consumer of a
      stream that ended was handed all of it. */
  lemma DoneMeansPlayed(ttl: nat, log: seq<Event>, id: string, w: Watch, v: Verdict)
    requires FreshIds(log) && log != [] && log[|log| - 1].op == Take(id) && LastReply(ttl, log).Ended?
    requires Stands(ttl, log, id, Outcome(w, v)) && w.audio == []
    ensures Delivered(ttl, log, id) == v.audio
  {
    EndMeansAll(ttl, log);
  }

  /** On the live path a failing language model ends the session with its own code, unless the
      engine ended the stream before that failure came out of the queue. */
  lemma LlmFailureExactlyWhen(p: Providers, s: Skill)
    requires p.prepared.None? && p.healthyBefore && p.healthyAfter
    requires AnswerStream(s).raises && p.live.refuses.None?
    ensures var llm, v := AnswerStream(s), Judged(AnswerCourse(p, s));
            var before := Heard(UpTo(p.live.events(T.Fed(llm.chunks, p.limits).ready), p.live.failAt));
            && (before.raised == Some(Other) ==> v.ending == Aborted(LLM_FAILED))
            && (v.ending == Completed <==>
                  before.raised == None && Trim(Concat(UpTo(llm.chunks, p.live.arrived))) != "")
            && v.audio == F.NonEmpty(before.chunks)
  {
    hide Trim, F.NonEmpty, Heard;
    var own := p.live.events(T.Fed(AnswerStream(s).chunks, p.limits).ready);
    var before := UpTo(own, p.live.failAt);
    HeardUpToFailure(before, LLM_FAILED, own[|before|..]);
    HeardRaises(before);
  }

  lemma HeardRaises(events: seq<TtsEvent>)
    ensures var r := Heard(events).raised; r.None? || r.value.Other? || r.value.TtsError?
  {
  }

  /** The run gets as far as the audio. */
  predicate Answers(p: Providers, w: Watch) {
    HasInput(w) && (Trim(w.question) != "" || (p.asrError == "" && p.asrText != "")) && p.skill.Some?
  }

  /** The answer that is spoken while it is written: the engine is given segments that together
      are all of the answer, or, if the language model fails, the beginning of it that had been
      cut; what the stream gets is what the engine's events carry. */
  lemma WhatIsSpokenLive(p: Providers, w: Watch) returns (segments: seq<string>)
    requires Answers(p, w) && p.prepared.None? && p.healthyBefore && p.healthyAfter && p.live.refuses.None?
    ensures var llm, v := AnswerStream(p.skill.value), Judged(SessionCourse(p, w));
            var own := p.live.events(segments);
            && Concat(segments) <= T.Stripped(Concat(llm.chunks))
            && (!llm.raises ==> Concat(segments) == T.Stripped(Concat(llm.chunks)))
            && (!llm.raises ==> segments == T.Said(llm.chunks, p.limits))
            && (llm.raises ==> segments == T.Fed(llm.chunks, p.limits).ready)
            && v.audio == F.NonEmpty(Heard(if llm.raises then UpTo(own, p.live.failAt) else own).chunks)
            && (p.limits.maxChars > 0 ==> T.Speakable(segments, T.Bound(p.limits)))
  {
    hide Trim, F.NonEmpty, Heard, T.Said, T.Fed, T.Stripped, T.Speakable, Concat;
    var llm := AnswerStream(p.skill.value);
    T.FedLosesNothing(llm.chunks, p.limits);
    T.SaidLosesNothing(llm.chunks, p.limits);
    segments := if llm.raises then T.Fed(llm.chunks, p.limits).ready else T.Said(llm.chunks, p.limits);
    if llm.raises {
      var own := p.live.events(segments);
      var before := UpTo(own, p.live.failAt);
      HeardUpToFailure(before, LLM_FAILED, own[|before|..]);
    }
  }

  /** The answer that is spoken from files, and the answer that was recorded. */
  lemma WhatIsPlayed(p: Providers, w: Watch)
    requires Answers(p, w)
    ensures var s, v := p.skill.value, Judged(SessionCourse(p, w));
            var llm := AnswerStream(s);
            var text := Trim(Concat(llm.chunks));
            && (p.prepared.Some? ==> v.audio == F.NonEmpty(p.prepared.value.chunks))
            && (p.prepared.None? && p.healthyBefore && !p.healthyAfter ==>
                  v.audio == F.NonEmpty(p.speech([], Trim(s.answer)).chunks))
            && (p.prepared.None? && !p.healthyBefore && (llm.raises || text == "") ==> v.audio == [])
            && (p.prepared.None? && !p.healthyBefore && !p.healthyAfter && !llm.raises && text != "" ==>
                  var segments := T.Spoken(T.Stripped(Concat(llm.chunks)), p.limits);
                  && Concat(segments) == T.Stripped(Concat(llm.chunks))
                  && v.audio == F.NonEmpty(p.speech(segments, text).chunks))
  {
    hide Trim, F.NonEmpty, Heard, T.Spoken, T.Stripped, Concat;
    T.SpokenLosesNothing(Concat(AnswerStream(p.skill.value).chunks), p.limits);
  }

  /** How a run ends that does not get as far as the audio, or has nothing to say. */
  lemma EndsWithoutAudio(p: Providers, w: Watch)
    ensures var given, v := Trim(w.question), Judged(SessionCourse(p, w));
            && (v.ending == Missing <==> w.wav == "" && given == "")
            && (w.wav != "" && given == "" && p.asrError != "" ==> v.ending == Aborted(p.asrError))
            && (w.wav != "" && given == "" && p.asrError == "" && p.asrText == "" ==>
                  v.ending == Aborted("asr_empty_text"))
            && (given != "" && p.skill.None? ==> v.ending == Aborted("skill_route_failed"))
            && (!Answers(p, w) ==> v.audio == [])
    ensures var given, kept := Trim(w.question), QuestionAfter(p, w);
            && (given != "" ==> kept == p.normalize(given))
            && (given == "" && w.wav != "" && p.asrError == "" && p.asrText != "" ==> kept == p.normalize(p.asrText))
            && (given == "" && (w.wav == "" || p.asrError != "" || p.asrText == "") ==> kept == w.question)
    ensures Answers(p, w) && p.prepared.None? && !p.healthyBefore ==>
              var llm, ending := AnswerStream(p.skill.value), Judged(SessionCourse(p, w)).ending;
              && (llm.raises ==> ending == Aborted("llm_request_failed"))
              && (!llm.raises && Trim(Concat(llm.chunks)) == "" ==> ending == Aborted("llm_empty_text"))
    ensures p.skill.Some? ==>
              var s, llm := p.skill.value, AnswerStream(p.skill.value);
              && (s.stream.Some? ==> llm == s.stream.value)
              && (s.stream.None? ==> !llm.raises && Concat(llm.chunks) == Trim(s.answer))
  {
    hide Trim, F.NonEmpty, Heard;
    TrimOfNothing();
  }

  lemma TrimOfNothing()
    ensures Trim("") == ""
    ensures forall text: string :: Concat([text]) == text
  {
    forall text: string ensures Concat([text]) == text {
      assert Concat([text][1..]) == [];
    }
  }

  /** How a playback ends: by its exception, if the code that plays it catches that exception;
      otherwise the exception leaves the thread. Without one it is completed if there was something
      to play. */
  lemma EndOfPlayback(p: Providers, w: Watch)
    requires Answers(p, w)
    ensures p.prepared.Some? ==>
              var ending := Judged(SessionCourse(p, w)).ending;
              match p.prepared.value.raised
              case None =>
                ending == if forall c :: c in p.prepared.value.chunks ==> c == [] then Aborted("tts_empty_audio")
                          else Completed
              case Some(ValueError(text)) => ending == Aborted(text)
              case Some(_) => ending == Escaped
    ensures p.prepared.None? && p.healthyBefore && p.healthyAfter && p.live.refuses.Some? ==>
              var ending := Judged(SessionCourse(p, w)).ending;
              match p.live.refuses.value
              case TtsError(code) => ending == Aborted(code)
              case _ => ending == Escaped
    ensures p.prepared.None? && p.healthyBefore && p.healthyAfter && p.live.refuses.None? ==>
              var llm, ending := AnswerStream(p.skill.value), Judged(SessionCourse(p, w)).ending;
              match Heard(Queued(p.live, Spoken(p, llm), llm.raises)).raised
              case None =>
                ending == if Trim(Concat(UpTo(llm.chunks, p.live.arrived))) == "" then Aborted("llm_empty_text")
                          else Completed
              case Some(TtsError(code)) => ending == Aborted(code)
              case Some(_) => ending == Escaped
    ensures p.prepared.None? && p.healthyBefore && !p.healthyAfter ==>
              var ending := Judged(SessionCourse(p, w)).ending;
              match p.speech([], Trim(p.skill.value.answer)).raised
              case None => ending == Completed
              case Some(Other) => ending == Escaped
              case Some(TtsError(code)) => ending == Aborted(code)
              case Some(ValueError(text)) => ending == Aborted(text)
  {
    hide Trim, Heard, F.NonEmpty;
    if p.prepared.Some? {
      NothingAudible(p.prepared.value.chunks);
    }
  }

  lemma {:induction false} NothingAudible(chunks: seq<Chunk>)
    ensures F.NonEmpty(chunks) == [] <==> forall c :: c in chunks ==> c == []
  {
    if chunks != [] {
      NothingAudible(chunks[1..]);
      F.NonEmptyUnfolds(chunks);
      assert chunks[0] in chunks;
      assert forall c :: c in chunks <==> c == chunks[0] || c in chunks[1..];
    }
  }

  /** The text without the white space around it. */
  lemma TrimMeans(s: string)
    ensures exists i, j :: 0 <= i <= j <= |s| && Trim(s) == s[i..j]
                           && (forall k :: 0 <= k < i || j <= k < |s| ==> T.IsSpace(s[k]))
    ensures Trim(s) != "" ==> !T.IsSpace(Trim(s)[0]) && !T.IsSpace(Trim(s)[|Trim(s)| - 1])
  {
    hide T.IsSpace;
    var i := LeftTrimMeans(s);
    var n := RightTrimMeans(s[i..]);
    assert s[i..][..n] == s[i..i + n];
    assert forall k :: i + n <= k < |s| ==> s[k] == s[i..][k - i];
  }

  lemma {:induction false} LeftTrimMeans(s: string) returns (i: nat)
    ensures i <= |s| && LeftTrim(s) == s[i..] && (forall k :: 0 <= k < i ==> T.IsSpace(s[k]))
    ensures i < |s| ==> !T.IsSpace(s[i])
  {
    hide T.IsSpace;
    if s != "" && T.IsSpace(s[0]) {
      var j := LeftTrimMeans(s[1..]);
      i := j + 1;
      assert s[1..][j..] == s[i..];
      assert forall k :: 1 <= k < i ==> s[k] == s[1..][k - 1];
    } else {
      i := 0;
    }
  }

  lemma {:induction false} RightTrimMeans(s: string) returns (n: nat)
    ensures n <= |s| && RightTrim(s) == s[..n] && (forall k :: n <= k < |s| ==> T.IsSpace(s[k]))
    ensures n > 0 ==> !T.IsSpace(s[n - 1])
  {
    hide T.IsSpace;
    if s != "" && T.IsSpace(s[|s| - 1]) {
      n := RightTrimMeans(s[..|s| - 1]);
      assert s[..|s| - 1][..n] == s[..n];
    } else {
      n := |s|;
    }
  }

  const GREETED := Watch(10, "", "hi", [Accepted], "", [], false, "")

  lemma GreetedHasInput()
    ensures Trim(GREETED.question) == "hi" && HasInput(GREETED)
  {
    assert LeftTrim("hi") == "hi" && RightTrim("hi") == "hi";
  }

  const NO_LIMITS := T.Config(1, 0, None, None)

  /** A recorded answer that breaks with an empty message. */
  const NAMELESS := Providers("", "", s => s, Some(Skill("hello", None)), Some(Playback([], Some(ValueError("")))),
                              true, true, Engine(None, _ => [], 0, 0), (_, _) => Playback([], None), NO_LIMITS)

  /** The session fails, but the consumer of its audio sees a clean end. */
  lemma NamelessFailureLooksClean()
    ensures var o := Outcome(GREETED, Judged(SessionCourse(NAMELESS, GREETED)));
            o.history == [Accepted, Running, Failed] && o.finished && o.error == "" && o.audio == []
  {
    GreetedHasInput();
    F.NothingNonEmpty();
    hide Trim;
  }

  /** A streaming engine that stops answering. */
  const SILENT := NAMELESS.(prepared := None)

  /** The queue timeout is not caught: the session stays running and its audio open. */
  lemma SilentEngineLeavesItRunning()
    ensures var o := Outcome(GREETED, Judged(SessionCourse(SILENT, GREETED)));
            o.history == [Accepted, Running] && !o.finished && o.audio == []
  {
    GreetedHasInput();
    F.NothingNonEmpty();
    hide Trim, T.Said;
    NothingHeard();
  }

  /** A language model that breaks off after the engine has ended the stream. */
  const LATE := NAMELESS.(prepared := None, skill := Some(Skill("", Some(Llm(["hi"], true)))),
                          live := Engine(None, _ => [Delta([7]), ResponseDone], 2, 1))

  /** The session is completed although its language model failed. */
  lemma LateFailureIsMissed()
    ensures AnswerStream(LATE.skill.value).raises
    ensures Judged(SessionCourse(LATE, GREETED)) == Verdict(Completed, [[7]])
    ensures Outcome(GREETED, Judged(SessionCourse(LATE, GREETED))).history == [Accepted, Running, Done]
  {
    GreetedHasInput();
    var llm := Llm(["hi"], true);
    var own := [Delta([7]), ResponseDone];
    assert UpTo(own, 2) == own && Heard(own[1..]) == Playback([], None);
    assert Heard(own) == Playback([[7]], None) by {
      assert [[7 as Byte]] + [] == [[7]];
    }
    HeardUpToFailure(own, LLM_FAILED, []);
    assert own[2..] == [] && UpTo(llm.chunks, 1) == ["hi"];
    assert Concat(["hi"]) == "hi" by {
      assert ["hi"][1..] == [] && "hi" + "" == "hi";
    }
    assert F.NonEmpty([[7 as Byte]]) == [[7]] by {
      assert [[7 as Byte]][1..] == [];
    }
    hide Trim, Heard, F.NonEmpty, T.Fed;
  }
}
