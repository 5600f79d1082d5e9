/** The idiom-chain game: one game per device, a user and a robot taking turns, where each word
    starts with the sound the previous one ended with. */
module IdiomGame {
  import opened Bytes

  datatype Entry = Entry(word: string, firstPy: string, lastPy: string)

  datatype Difficulty = Easy | Normal | Hard | Full

  datatype Config = Config(
    idioms: seq<Entry>, openings: seq<string>, default: Difficulty, replyLimit: Option<int>,
    targetOverride: int)

  datatype Game = Game(expected: string, used: set<string>, turns: nat, difficulty: Difficulty)

  function Level(d: Difficulty): nat {
    match d case Easy => 0 case Normal => 1 case Hard => 2 case Full => 3
  }

  function Target(c: Config, d: Difficulty): (n: nat)
    ensures n > 0
  {
    if c.targetOverride > 0 then c.targetOverride
    else match d case Easy => 8 case Normal => 15 case Hard => 25 case Full => 50
  }

  /** How many dictionary entries the robot knows. */
  function PoolSize(c: Config, d: Difficulty): (n: nat)
    ensures n <= |c.idioms|
  {
    var limit :=
      if c.replyLimit.Some? then (if c.replyLimit.value < 0 then 0 else c.replyLimit.value)
      else match d case Easy => 500 case Normal => 3000 case Hard => 10000 case Full => |c.idioms|;
    Min(limit, |c.idioms|)
  }

  function Pool(c: Config, d: Difficulty): seq<Entry> {
    c.idioms[..PoolSize(c, d)]
  }

  // ---------------------------------------------------------------- the robot's reply

  /** The first entry of a list that can be played. */
  function FirstMatch(entries: seq<Entry>, py: string, used: set<string>): (reply: Option<Entry>)
    ensures reply.Some? ==> reply.value in entries && reply.value.firstPy == py && reply.value.word !in used
    ensures reply.None? ==> forall e :: e in entries && e.firstPy == py ==> e.word in used
  {
    if entries == [] then None
    else if entries[0].firstPy == py && entries[0].word !in used then Some(entries[0])
    else FirstMatch(entries[1..], py, used)
  }

  function Starting(entries: seq<Entry>, py: string): seq<Entry> {
    if entries == [] then []
    else (if entries[0].firstPy == py then [entries[0]] else []) + Starting(entries[1..], py)
  }

  lemma {:induction false} StartingSnoc(entries: seq<Entry>, e: Entry, py: string)
    ensures Starting(entries + [e], py) == Starting(entries, py) + if e.firstPy == py then [e] else []
  {
    if entries != [] {
      assert (entries + [e])[1..] == entries[1..] + [e];
      StartingSnoc(entries[1..], e, py);
    }
  }

  /** Looking only at the entries with the right sound finds the same reply. */
  lemma {:induction false} ScanOfStarting(entries: seq<Entry>, py: string, used: set<string>)
    ensures FirstMatch(Starting(entries, py), py, used) == FirstMatch(entries, py, used)
  {
    if entries != [] {
      var rest := Starting(entries[1..], py);
      ScanOfStarting(entries[1..], py, used);
      if entries[0].firstPy == py {
        assert ([entries[0]] + rest)[1..] == rest;
      } else {
        assert Starting(entries, py) == rest;
      }
    }
  }

  lemma {:induction false} ScanOfPrefix(entries: seq<Entry>, more: seq<Entry>, py: string, used: set<string>)
    requires FirstMatch(entries, py, used).Some?
    ensures FirstMatch(entries + more, py, used) == FirstMatch(entries, py, used)
  {
    if entries != [] {
      assert (entries + more)[1..] == entries[1..] + more;
      if !(entries[0].firstPy == py && entries[0].word !in used) {
        ScanOfPrefix(entries[1..], more, py, used);
      }
    }
  }

  /** A reply at one level is the reply at every harder level. */
  lemma EasierReplyIsHarderReply(c: Config, d: Difficulty, harder: Difficulty, py: string, used: set<string>)
    requires Level(d) <= Level(harder)
    ensures FirstMatch(Pool(c, d), py, used).Some? ==>
              FirstMatch(Pool(c, harder), py, used) == FirstMatch(Pool(c, d), py, used)
  {
    var n, m := PoolSize(c, d), PoolSize(c, harder);
    assert n <= m;
    assert Pool(c, harder) == Pool(c, d) + c.idioms[n..m];
    if FirstMatch(Pool(c, d), py, used).Some? {
      ScanOfPrefix(Pool(c, d), c.idioms[n..m], py, used);
    }
  }

  type Index = map<string, seq<Entry>>

  function Lookup(index: Index, py: string): seq<Entry> {
    if py in index then index[py] else []
  }

  ghost predicate Indexes(index: Index, entries: seq<Entry>) {
    forall py :: Lookup(index, py) == Starting(entries, py)
  }

  method BuildReplyIndex(entries: seq<Entry>) returns (index: Index)
    ensures Indexes(index, entries)
  {
    index := map[];
    for i := 0 to |entries|
      invariant Indexes(index, entries[..i])
    {
      ghost var before := index;
      var e := entries[i];
      index := index[e.firstPy := Lookup(index, e.firstPy) + [e]];
      assert entries[..i + 1] == entries[..i] + [e];
      forall py ensures Lookup(index, py) == Starting(entries[..i + 1], py) {
        StartingSnoc(entries[..i], e, py);
        assert Lookup(before, py) == Starting(entries[..i], py);
      }
    }
    assert entries[..|entries|] == entries;
  }

  method FindReply(index: Index, ghost pool: seq<Entry>, py: string, used: set<string>) returns (reply: Option<Entry>)
    requires Indexes(index, pool)
    ensures reply == FirstMatch(pool, py, used)
  {
    var entries := Lookup(index, py);
    ScanOfStarting(pool, py, used);
    assert entries == Starting(pool, py);
    assert entries[0..] == entries;
    for i := 0 to |entries|
      invariant FirstMatch(entries[i..], py, used) == FirstMatch(pool, py, used)
    {
      OnlyStarting(pool, py, entries[i]);
      assert entries[i..][0] == entries[i] && entries[i..][1..] == entries[i + 1..];
      if entries[i].word !in used {
        return Some(entries[i]);
      }
    }
    return None;
  }

  lemma {:induction false} OnlyStarting(entries: seq<Entry>, py: string, e: Entry)
    requires e in Starting(entries, py)
    ensures e.firstPy == py && e in entries
  {
    if entries != [] && e in Starting(entries[1..], py) {
      OnlyStarting(entries[1..], py, e);
    }
  }

  // ---------------------------------------------------------------- one message to a running game

  /** What was heard: a request for a difficulty, and the idiom found in the text (by the
      dictionary or by the judge), if any. */
  datatype Heard = Heard(difficulty: Option<Difficulty>, entry: Option<Entry>)

  datatype Outcome =
    | Started(opening: Entry)
    | Switched
    | Unknown
    | Repeated
    | WrongPrefix
    | UserWinsTurns
    | UserWinsNoReply
    | Replied(reply: Entry)

  datatype Turn = Turn(game: Option<Game>, outcome: Outcome)

  function Respond(c: Config, g: Game, h: Heard): Turn {
    if h.difficulty.Some? then Turn(Some(g.(turns := 0, difficulty := h.difficulty.value)), Switched)
    else if h.entry.None? then Turn(Some(g), Unknown)
    else
      var e := h.entry.value;
      if e.word in g.used then Turn(Some(g), Repeated)
      else if e.firstPy != g.expected then Turn(Some(g), WrongPrefix)
      else if g.turns + 1 >= Target(c, g.difficulty) then Turn(None, UserWinsTurns)
      else
        var used := g.used + {e.word};
        match FirstMatch(Pool(c, g.difficulty), e.lastPy, used)
        case None => Turn(None, UserWinsNoReply)
        case Some(reply) =>
          Turn(Some(Game(reply.lastPy, used + {reply.word}, g.turns + 1, g.difficulty)), Replied(reply))
  }

  /** The rules of one turn: a word is answered or wins only if it is new and starts with the
      sound asked for; it wins by the turn that fills the target, or because every entry the
      robot knows with the right sound has been played; and the answer is such an entry. */
  lemma TurnEndsExactlyWhen(c: Config, g: Game, h: Heard)
    ensures var outcome := Respond(c, g, h).outcome;
            && (outcome.Switched? <==> h.difficulty.Some?)
            && (outcome.Unknown? <==> h.difficulty.None? && h.entry.None?)
    ensures h.difficulty.None? && h.entry.Some? ==>
              var e, outcome := h.entry.value, Respond(c, g, h).outcome;
              && (outcome.Repeated? <==> e.word in g.used)
              && (outcome.WrongPrefix? <==> e.word !in g.used && e.firstPy != g.expected)
              && (outcome.UserWinsTurns? <==>
                  e.word !in g.used && e.firstPy == g.expected && g.turns + 1 >= Target(c, g.difficulty))
              && (outcome.UserWinsNoReply? || outcome.Replied? <==>
                  e.word !in g.used && e.firstPy == g.expected && g.turns + 1 < Target(c, g.difficulty))
              && (outcome.UserWinsNoReply? ==> forall k :: 0 <= k < PoolSize(c, g.difficulty) ==>
                    !Playable(c.idioms[k], e.lastPy, g.used, e.word))
              && (outcome.Replied? ==> exists k :: (
                    && 0 <= k < PoolSize(c, g.difficulty) && c.idioms[k] == outcome.reply
                    && Playable(c.idioms[k], e.lastPy, g.used, e.word)
                    && forall j :: 0 <= j < k ==> !Playable(c.idioms[j], e.lastPy, g.used, e.word)))
  {
    hide FirstMatch, Target, PoolSize;
    if h.entry.Some? {
      var e := h.entry.value;
      var _ := MatchIsFirst(Pool(c, g.difficulty), e.lastPy, g.used, e.word);
    }
  }

  predicate Playable(entry: Entry, py: string, used: set<string>, word: string) {
    entry.firstPy == py && entry.word !in used && entry.word != word
  }

  lemma {:induction false} MatchIsFirst(entries: seq<Entry>, py: string, used: set<string>, word: string)
    returns (k: nat)
    ensures k <= |entries| && forall j :: 0 <= j < k ==> !Playable(entries[j], py, used, word)
    ensures FirstMatch(entries, py, used + {word}).None? <==> k == |entries|
    ensures k < |entries| ==> Playable(entries[k], py, used, word) &&
                              FirstMatch(entries, py, used + {word}) == Some(entries[k])
  {
    if entries == [] || (entries[0].firstPy == py && entries[0].word !in used + {word}) {
      k := 0;
    } else {
      k := MatchIsFirst(entries[1..], py, used, word);
      k := k + 1;
      assert forall j :: 0 < j < |entries| ==> entries[j] == entries[1..][j - 1];
    }
  }

  function NewGame(opening: Entry, d: Difficulty): Game {
    Game(opening.lastPy, {opening.word}, 0, d)
  }

  // ---------------------------------------------------------------- whole games

  /** A game so far: every word played, and those among them the robot played. */
  datatype Record = Record(chain: seq<Entry>, robot: seq<Entry>)

  function Recorded(r: Record, h: Heard, outcome: Outcome): Record {
    match outcome
    case Replied(reply) =>
      if h.entry.Some? then Record(r.chain + [h.entry.value, reply], r.robot + [reply]) else r
    case UserWinsTurns => if h.entry.Some? then r.(chain := r.chain + [h.entry.value]) else r
    case UserWinsNoReply => if h.entry.Some? then r.(chain := r.chain + [h.entry.value]) else r
    case _ => r
  }

  ghost predicate NoRepeats(chain: seq<Entry>) {
    forall i, j :: 0 <= i < j < |chain| ==> chain[i].word != chain[j].word
  }

  ghost predicate Linked(chain: seq<Entry>) {
    forall i :: 0 <= i < |chain| - 1 ==> chain[i + 1].firstPy == chain[i].lastPy
  }

  /** The stored game fits the words played so far. */
  ghost predicate Agrees(c: Config, g: Game, r: Record) {
    && r.chain != [] && g.expected == r.chain[|r.chain| - 1].lastPy
    && (forall w :: w in g.used <==> exists i :: 0 <= i < |r.chain| && r.chain[i].word == w)
    && g.turns < Target(c, g.difficulty)
    && |r.chain| == 2 * |r.robot| - 1
    && g.turns < |r.robot|
  }

  ghost predicate Fair(c: Config, r: Record) {
    && NoRepeats(r.chain) && Linked(r.chain) && NoRepeats(r.robot)
    && (forall i :: 0 <= i < |r.robot| ==> r.robot[i] in c.idioms && r.robot[i] in r.chain)
  }

  /** What holds of a game in play. */
  ghost predicate Kept(c: Config, g: Game, r: Record) {
    Agrees(c, g, r) && Fair(c, r)
  }

  lemma Grows(chain: seq<Entry>, e: Entry)
    requires NoRepeats(chain) && Linked(chain) && chain != []
    requires e.firstPy == chain[|chain| - 1].lastPy
    requires forall i :: 0 <= i < |chain| ==> chain[i].word != e.word
    ensures NoRepeats(chain + [e]) && Linked(chain + [e])
  {
  }

  lemma RespondKeeps(c: Config, g: Game, r: Record, h: Heard)
    requires Kept(c, g, r)
    ensures var t := Respond(c, g, h);
            var r' := Recorded(r, h, t.outcome);
            Fair(c, r') && (t.game.Some? ==> Kept(c, t.game.value, r'))
  {
    hide FirstMatch, Target;
    var t := Respond(c, g, h);
    var r' := Recorded(r, h, t.outcome);
    if t.outcome.Replied? || t.outcome.UserWinsTurns? || t.outcome.UserWinsNoReply? {
      var e := h.entry.value;
      var half := r.chain + [e];
      Grows(r.chain, e);
      if t.outcome.Replied? {
        ReplyKeeps(c, g, r, e, t.outcome.reply);
        assert r.chain + [e, t.outcome.reply] == half + [t.outcome.reply];
      }
    }
  }

  lemma ReplyKeeps(c: Config, g: Game, r: Record, e: Entry, reply: Entry)
    requires Agrees(c, g, r) && Fair(c, r) && e.word !in g.used && e.firstPy == g.expected
    requires reply.firstPy == e.lastPy && reply.word !in g.used + {e.word} && reply in c.idioms
    requires g.turns + 1 < Target(c, g.difficulty)
    ensures var r' := Record((r.chain + [e]) + [reply], r.robot + [reply]);
            Fair(c, r') &&
            Agrees(c, Game(reply.lastPy, g.used + {e.word} + {reply.word}, g.turns + 1, g.difficulty), r')
  {
    var half := r.chain + [e];
    var whole := half + [reply];
    Grows(r.chain, e);
    Grows(half, reply);
    forall w ensures w in g.used + {e.word} + {reply.word} <==> exists i :: 0 <= i < |whole| && whole[i].word == w {
      if w in g.used {
        var i :| 0 <= i < |r.chain| && r.chain[i].word == w;
        assert whole[i].word == w;
      }
      assert whole[|r.chain|] == e && whole[|r.chain| + 1] == reply;
    }
    forall i | 0 <= i < |r.robot| ensures r.robot[i].word != reply.word && r.robot[i] in whole {
      assert r.robot[i] in r.chain;
    }
  }

  /** All messages to one game, until it ends: by a win, or (None) because it expired or was
      left. */
  function Play(c: Config, t: (Option<Game>, Record), messages: seq<Option<Heard>>): (Option<Game>, Record)
    decreases |messages|
  {
    if messages == [] || t.0.None? then t
    else if messages[0].None? then (None, t.1)
    else
      var h := messages[0].value;
      var turn := Respond(c, t.0.value, h);
      Play(c, (turn.game, Recorded(t.1, h, turn.outcome)), messages[1..])
  }

  /** In every game no word is played twice, each word starts with the sound the previous one
      ended with, and the stored turn count stays below the target in force. */
  lemma {:induction false} EveryGameIsFair(c: Config, t: (Option<Game>, Record), messages: seq<Option<Heard>>)
    requires Fair(c, t.1) && (t.0.Some? ==> Kept(c, t.0.value, t.1))
    ensures var end := Play(c, t, messages);
            Fair(c, end.1) && (end.0.Some? ==> Kept(c, end.0.value, end.1))
    decreases |messages|
  {
    if messages != [] && t.0.Some? && messages[0].Some? {
      hide Respond, Recorded, Fair, Kept;
      var h := messages[0].value;
      var turn := Respond(c, t.0.value, h);
      RespondKeeps(c, t.0.value, t.1, h);
      EveryGameIsFair(c, (turn.game, Recorded(t.1, h, turn.outcome)), messages[1..]);
    }
  }

  lemma {:induction false} DistinctWordsFit(robot: seq<Entry>, words: set<string>)
    requires NoRepeats(robot) && forall i :: 0 <= i < |robot| ==> robot[i].word in words
    ensures |robot| <= |words|
    decreases |robot|
  {
    if robot != [] {
      var n := |robot| - 1;
      DistinctWordsFit(robot[..n], words - {robot[n].word});
    }
  }

  lemma {:induction false} WordsBound(idioms: seq<Entry>)
    ensures |set e | e in idioms :: e.word| <= |idioms|
    decreases |idioms|
  {
    if idioms != [] {
      WordsBound(idioms[1..]);
      assert (set e | e in idioms :: e.word) == (set e | e in idioms[1..] :: e.word) + {idioms[0].word};
    } else {
      assert (set e | e in idioms :: e.word) == {};
    }
  }

  /** From the opening on, the robot plays at most as many words as the dictionary has,
      however often the difficulty is switched. */
  lemma GameIsBounded(c: Config, opening: Entry, d: Difficulty, messages: seq<Option<Heard>>)
    requires opening in c.idioms
    ensures var end := Play(c, (Some(NewGame(opening, d)), Record([opening], [opening])), messages);
            && NoRepeats(end.1.chain) && Linked(end.1.chain)
            && |end.1.robot| <= |c.idioms|
            && |end.1.chain| <= 2 * |c.idioms|
  {
    var start := (Some(NewGame(opening, d)), Record([opening], [opening]));
    OpeningIsFair(c, opening, d);
    EveryGameIsFair(c, start, messages);
    ChainLength(c, start, messages);
    var end := Play(c, start, messages);
    var words := set e | e in c.idioms :: e.word;
    hide Play;
    forall i | 0 <= i < |end.1.robot| ensures end.1.robot[i].word in words {
      assert end.1.robot[i] in c.idioms;
    }
    DistinctWordsFit(end.1.robot, words);
    WordsBound(c.idioms);
  }

  lemma OpeningIsFair(c: Config, opening: Entry, d: Difficulty)
    requires opening in c.idioms
    ensures Kept(c, NewGame(opening, d), Record([opening], [opening]))
  {
    assert [opening][0] == opening;
  }

  /** The user is at most one word ahead. */
  lemma {:induction false} ChainLength(c: Config, t: (Option<Game>, Record), messages: seq<Option<Heard>>)
    requires |t.1.chain| <= 2 * |t.1.robot| && (t.0.Some? ==> |t.1.chain| == 2 * |t.1.robot| - 1)
    ensures var end := Play(c, t, messages); |end.1.chain| <= 2 * |end.1.robot|
    decreases |messages|
  {
    if messages != [] && t.0.Some? && messages[0].Some? {
      var h := messages[0].value;
      var turn := Respond(c, t.0.value, h);
      ChainLength(c, (turn.game, Recorded(t.1, h, turn.outcome)), messages[1..]);
    }
  }

  /** While the difficulty is not switched, the robot has played one word per turn and the
      opening. */
  lemma {:induction false} TurnsAreReplies(c: Config, t: (Option<Game>, Record), messages: seq<Option<Heard>>)
    requires forall m :: m in messages && m.Some? ==> m.value.difficulty.None?
    requires t.0.Some? ==> |t.1.robot| == t.0.value.turns + 1
    ensures var end := Play(c, t, messages);
            end.0.Some? ==> t.0.Some? && |end.1.robot| == end.0.value.turns + 1 &&
                            end.0.value.difficulty == t.0.value.difficulty
    decreases |messages|
  {
    if messages != [] && t.0.Some? && messages[0].Some? {
      hide FirstMatch, Target;
      var h := messages[0].value;
      var turn := Respond(c, t.0.value, h);
      TurnsAreReplies(c, (turn.game, Recorded(t.1, h, turn.outcome)), messages[1..]);
    }
  }

  /** A game of one difficulty: a word that fits wins by turns exactly when the robot, its
      opening included, has said as many words as the difficulty demands of the user. */
  lemma WinsByTurnsExactlyWhen(c: Config, opening: Entry, d: Difficulty, messages: seq<Option<Heard>>, e: Entry)
    requires forall m :: m in messages && m.Some? ==> m.value.difficulty.None?
    ensures var end := Play(c, (Some(NewGame(opening, d)), Record([opening], [opening])), messages);
            var target := if c.targetOverride > 0 then c.targetOverride
                          else if d == Easy then 8 else if d == Normal then 15 else if d == Hard then 25 else 50;
            end.0.Some? && e.word !in end.0.value.used && e.firstPy == end.0.value.expected ==>
              (Respond(c, end.0.value, Heard(None, Some(e))).outcome.UserWinsTurns? <==> |end.1.robot| >= target)
  {
    hide Play, FirstMatch;
    TurnsAreReplies(c, (Some(NewGame(opening, d)), Record([opening], [opening])), messages);
    match d case Easy => case Normal => case Hard => case Full =>
  }

  /** The robot knows the first entries of the dictionary: as many as the difficulty says, or as
      the configured limit says at every difficulty. */
  lemma KnowsExactlyWhen(c: Config, d: Difficulty, k: nat)
    requires k < |c.idioms|
    ensures k < |Pool(c, d)| <==>
            if c.replyLimit.Some? then k < c.replyLimit.value
            else d == Full || k < if d == Easy then 500 else if d == Normal then 3000 else 10000
    ensures k < |Pool(c, d)| ==> Pool(c, d)[k] == c.idioms[k]
  {
    match d case Easy => case Normal => case Hard => case Full =>
  }

  // ---------------------------------------------------------------- the skill

  predicate LastOf(idioms: seq<Entry>, k: nat)
    requires k < |idioms|
  {
    forall j :: k < j < |idioms| ==> idioms[j].word != idioms[k].word
  }

  /** Every word of the dictionary, with its last entry. */
  ghost predicate ByWord(known: map<string, Entry>, idioms: seq<Entry>) {
    && (forall i :: 0 <= i < |idioms| ==> idioms[i].word in known)
    && forall w :: w in known ==> IsLast(idioms, w, known[w])
  }

  ghost predicate IsLast(idioms: seq<Entry>, w: string, e: Entry) {
    e.word == w && exists k :: 0 <= k < |idioms| && idioms[k] == e && LastOf(idioms, k)
  }

  lemma StaysLast(idioms: seq<Entry>, i: nat, w: string, e: Entry)
    requires i < |idioms| && IsLast(idioms[..i], w, e) && w != idioms[i].word
    ensures IsLast(idioms[..i + 1], w, e)
  {
    var k :| 0 <= k < i && idioms[..i][k] == e && LastOf(idioms[..i], k);
    assert idioms[..i + 1] == idioms[..i] + [idioms[i]];
    assert idioms[..i + 1][k] == e && LastOf(idioms[..i + 1], k);
  }

  lemma BecomesLast(idioms: seq<Entry>, i: nat)
    requires i < |idioms|
    ensures IsLast(idioms[..i + 1], idioms[i].word, idioms[i])
  {
    assert idioms[..i + 1][i] == idioms[i] && LastOf(idioms[..i + 1], i);
  }

  method IndexByWord(idioms: seq<Entry>) returns (known: map<string, Entry>)
    ensures ByWord(known, idioms)
  {
    hide IsLast;
    known := map[];
    for i := 0 to |idioms|
      invariant forall k :: 0 <= k < i ==> idioms[k].word in known
      invariant forall w :: w in known ==> IsLast(idioms[..i], w, known[w])
    {
      ghost var before := known;
      known := known[idioms[i].word := idioms[i]];
      forall w | w in known ensures IsLast(idioms[..i + 1], w, known[w]) {
        if w == idioms[i].word {
          BecomesLast(idioms, i);
        } else {
          StaysLast(idioms, i, w, before[w]);
        }
      }
    }
    assert idioms[..|idioms|] == idioms;
  }

  /** The opening words the dictionary knows. */
  function Found(known: map<string, Entry>, words: seq<string>): seq<Entry> {
    if words == [] then []
    else
      var n := |words| - 1;
      Found(known, words[..n]) + if words[n] in known then [known[words[n]]] else []
  }

  function OpeningPool(c: Config, known: map<string, Entry>): seq<Entry> {
    if Found(known, c.openings) != [] then Found(known, c.openings) else c.idioms[..Min(64, |c.idioms|)]
  }

  method FindOpenings(c: Config, known: map<string, Entry>) returns (openings: seq<Entry>)
    requires c.idioms != [] && ByWord(known, c.idioms)
    ensures openings == OpeningPool(c, known) && openings != []
    ensures forall i :: 0 <= i < |openings| ==> openings[i] in c.idioms
  {
    openings := [];
    for i := 0 to |c.openings|
      invariant forall k :: 0 <= k < |openings| ==> openings[k] in c.idioms
      invariant openings == Found(known, c.openings[..i])
    {
      assert c.openings[..i + 1][..i] == c.openings[..i];
      if c.openings[i] in known {
        assert IsLast(c.idioms, c.openings[i], known[c.openings[i]]);
        openings := openings + [known[c.openings[i]]];
      }
    }
    assert c.openings[..|c.openings|] == c.openings;
    if openings == [] {
      openings := c.idioms[..Min(64, |c.idioms|)];
    }
  }

  datatype Stored = Stored(game: Game, updatedAt: int)

  function At(states: map<string, Stored>, device: string): Option<Stored> {
    if device in states then Some(states[device]) else None
  }

  /** A stored game that was touched within its time to live. */
  function Current(stored: Option<Stored>, ttl: int, now: int): Option<Game> {
    if stored.Some? && now - stored.value.updatedAt <= ttl then Some(stored.value.game) else None
  }

  /** One message: a new game when none is running, else a turn; a rejected turn does not even
      renew the game. */
  function Serve(c: Config, ttl: int, opening: Entry, stored: Option<Stored>, requested: Option<Difficulty>,
                 hear: string -> Option<Entry>, now: int): (Option<Stored>, Outcome)
  {
    match Current(stored, ttl, now)
    case None =>
      (Some(Stored(NewGame(opening, if requested.Some? then requested.value else c.default), now)), Started(opening))
    case Some(g) =>
      var turn := Respond(c, g, Heard(requested, hear(g.expected)));
      if turn.game.None? then (None, turn.outcome)
      else if turn.outcome.Switched? || turn.outcome.Replied? then (Some(Stored(turn.game.value, now)), turn.outcome)
      else (stored, turn.outcome)
  }

  /** The skill with its store of games, one per device. */
  class Skill {
    const config: Config
    const ttl: int
    const openings: seq<Entry>
    const index: map<Difficulty, Index>
    var states: map<string, Stored>
    ghost var records: map<string, Record>

    ghost predicate Ready() {
      && (forall d: Difficulty :: d in index && Indexes(index[d], Pool(config, d)))
      && openings != [] && (forall i :: 0 <= i < |openings| ==> openings[i] in config.idioms)
    }

    ghost predicate Valid()
      reads this
    {
      Ready() && forall device :: device in states ==>
        device in records && Kept(config, states[device].game, records[device])
    }

    /** The source refuses an empty dictionary before it gets here. */
    constructor (c: Config, ttl: int, openings: seq<Entry>, index: map<Difficulty, Index>)
      requires forall d: Difficulty :: d in index && Indexes(index[d], Pool(c, d))
      requires openings != [] && (forall i :: 0 <= i < |openings| ==> openings[i] in c.idioms)
      ensures Valid() && config == c && states == map[]
      ensures this.openings == openings && this.ttl == if ttl < 1 then 1 else ttl
    {
      config, this.ttl, this.openings, this.index := c, if ttl < 1 then 1 else ttl, openings, index;
      states, records := map[], map[];
    }

    method Get(device: string, now: int) returns (game: Option<Game>)
      modifies `states
      ensures game == Current(At(old(states), device), ttl, now)
      ensures states == if game.Some? then old(states) else old(states) - {device}
    {
      if device !in states {
        return None;
      }
      if now - states[device].updatedAt > ttl {
        states := states - {device};
        return None;
      }
      return Some(states[device].game);
    }

    method Save(device: string, g: Game, ghost r: Record, now: int)
      requires Valid() && Kept(config, g, r)
      modifies this
      ensures Valid() && states == old(states)[device := Stored(g, now)] && records == old(records)[device := r]
    {
      hide Kept, Ready;
      states := states[device := Stored(g, now)];
      records := records[device := r];
    }

    method Exit(device: string)
      requires Valid()
      modifies `states
      ensures Valid() && states == old(states) - {device}
    {
      states := states - {device};
    }

    method Start(device: string, requested: Option<Difficulty>, pick: nat, now: int) returns (outcome: Outcome)
      requires Valid() && pick < |openings|
      modifies this
      ensures Valid() && outcome == Started(openings[pick])
      ensures states == old(states)[device := Stored(
                NewGame(openings[pick], if requested.Some? then requested.value else config.default), now)]
      ensures records == old(records)[device := Record([openings[pick]], [openings[pick]])]
    {
      var opening := openings[pick];
      var difficulty := if requested.Some? then requested.value else config.default;
      OpeningIsFair(config, opening, difficulty);
      Save(device, NewGame(opening, difficulty), Record([opening], [opening]), now);
      return Started(opening);
    }

    /** What was accepted is played: the turn of a user's word that fits. */
    method PlayWord(device: string, g: Game, user: Entry, now: int) returns (outcome: Outcome)
      requires Valid() && device in states && states[device].game == g
      requires user.word !in g.used && user.firstPy == g.expected
      modifies this
      ensures Valid()
      ensures var turn := Respond(config, g, Heard(None, Some(user)));
              && outcome == turn.outcome
              && states == if turn.game.None? then old(states) - {device}
                           else old(states)[device := Stored(turn.game.value, now)]
    {
      hide FirstMatch, Kept;
      RespondKeeps(config, g, records[device], Heard(None, Some(user)));
      var used, turns := g.used + {user.word}, g.turns + 1;
      if turns >= Target(config, g.difficulty) {
        Exit(device);
        return UserWinsTurns;
      }
      var reply := FindReply(index[g.difficulty], Pool(config, g.difficulty), user.lastPy, used);
      if reply.None? {
        Exit(device);
        return UserWinsNoReply;
      }
      var game := Game(reply.value.lastPy, used + {reply.value.word}, turns, g.difficulty);
      outcome := Replied(reply.value);
      Save(device, game, Recorded(records[device], Heard(None, Some(user)), outcome), now);
    }

    /** One message from a device. `hear` is the idiom found in the text when a word starting
        with the given sound is expected. */
    method Handle(device: string, requested: Option<Difficulty>, hear: string -> Option<Entry>, pick: nat, now: int)
      returns (outcome: Outcome)
      requires Valid() && pick < |openings|
      modifies this
      ensures Valid()
      ensures (At(states, device), outcome) ==
              Serve(config, ttl, openings[pick], At(old(states), device), requested, hear, now)
      ensures states - {device} == old(states) - {device}
      ensures outcome.Started? <==> device !in old(states) || now - old(states)[device].updatedAt > ttl
      ensures outcome.UserWinsTurns? || outcome.UserWinsNoReply? <==> device !in states
      ensures outcome.Unknown? || outcome.Repeated? || outcome.WrongPrefix? ==> states == old(states)
      ensures outcome.Started? || outcome.Switched? || outcome.Replied? ==>
                device in states && states[device].updatedAt == now
    {
      hide Kept, Ready;
      var state := Get(device, now);
      if state.None? {
        outcome := Start(device, requested, pick, now);
        return;
      }
      var g := state.value;
      if requested.Some? {
        RespondKeeps(config, g, records[device], Heard(requested, hear(g.expected)));
        Save(device, g.(turns := 0, difficulty := requested.value), records[device], now);
        return Switched;
      }
      var user := hear(g.expected);
      if user.None? {
        return Unknown;
      }
      if user.value.word in g.used {
        return Repeated;
      }
      if user.value.firstPy != g.expected {
        return WrongPrefix;
      }
      outcome := PlayWord(device, g, user.value, now);
    }
  }

  method BuildReplyIndexes(c: Config) returns (index: map<Difficulty, Index>)
    ensures forall d: Difficulty :: d in index && Indexes(index[d], Pool(c, d))
  {
    hide Indexes, Pool;
    var easy := BuildReplyIndex(Pool(c, Easy));
    var normal := BuildReplyIndex(Pool(c, Normal));
    var hard := BuildReplyIndex(Pool(c, Hard));
    var full := BuildReplyIndex(Pool(c, Full));
    index := map[Easy := easy, Normal := normal, Hard := hard, Full := full];
    forall d: Difficulty ensures d in index && Indexes(index[d], Pool(c, d)) {
      match d case Easy => case Normal => case Hard => case Full =>
    }
  }

  /** The skill for a dictionary, with a reply index per difficulty. */
  method MakeSkill(c: Config, ttl: int) returns (r: Result<Skill, string>)
    ensures r.Err? <==> c.idioms == []
    ensures r.Ok? ==> r.value.Valid() && r.value.config == c && r.value.states == map[]
    ensures r.Ok? ==> exists known :: ByWord(known, c.idioms) && r.value.openings == OpeningPool(c, known)
  {
    if c.idioms == [] {
      return Err("idiom_game_requires_idioms");
    }
    hide ByWord, Indexes, OpeningPool, Pool;
    var known := IndexByWord(c.idioms);
    var openings := FindOpenings(c, known);
    var index := BuildReplyIndexes(c);
    var skill := new Skill(c, ttl, openings, index);
    return Ok(skill);
  }
}
