/** The game screen (App.tsx): the round state machine, the delay pool, the
    history of attempts, the all-time best time and its copy in local
    storage, the input lock of the intro and the settings dialog, and the
    headline panel's state. Timers become a pending flag with an explicit
    firing event; Math.random, performance.now (in microseconds) and
    Date.now (in milliseconds) become parameters; every handler returns the
    sound cue it asks the audio manager for. */
module App {
  import opened Types
  import opened JsBuiltins
  import opened DelayPool
  import opened Headlines
  import Audio

  const BestTimeKey: string := "reaction-pro-best-time"

  /** How many attempts the history keeps. */
  const HistoryLimit: nat := 10

  /** The intro stage from which the game accepts input. */
  const IntroDone: nat := 3

  // ------------------------------------------------------------ the history

  function MinNat(a: nat, b: nat): nat {
    if a <= b then a else b
  }

  /** [attempt, ...prev].slice(0, 10): the new attempt first, then the
      previous ones, newest first, cut to ten. */
  function Record(h: seq<Attempt>, a: Attempt): (r: seq<Attempt>)
    ensures |r| == MinNat(|h| + 1, HistoryLimit)
    ensures r[0] == a
    ensures r[1..] == h[..|r| - 1]
  {
    var all := [a] + h;
    assert all[1..] == h;
    all[..MinNat(|all|, HistoryLimit)]
  }

  /** The history after recording the attempts of `attempts`, oldest first. */
  function RecordAll(h: seq<Attempt>, attempts: seq<Attempt>): seq<Attempt> {
    if attempts == [] then h
    else Record(RecordAll(h, attempts[..|attempts| - 1]), attempts[|attempts| - 1])
  }

  function Reversed<T>(s: seq<T>): (r: seq<T>)
    ensures |r| == |s|
    ensures forall k :: 0 <= k < |s| ==> r[k] == s[|s| - 1 - k]
  {
    if s == [] then [] else [s[|s| - 1]] + Reversed(s[..|s| - 1])
  }

  /** Cutting before and after putting an element in front gives the same
      ten elements. */
  lemma ConsTake(a: Attempt, s: seq<Attempt>)
    ensures ([a] + s[..MinNat(|s|, HistoryLimit)])[..MinNat(MinNat(|s|, HistoryLimit) + 1, HistoryLimit)]
         == ([a] + s)[..MinNat(|s| + 1, HistoryLimit)]
  {
  }

  /** However many attempts are made, the history holds the ten newest
      attempts, newest first, followed by as many of the earlier history as
      still fit. */
  lemma {:induction false} RecordAllKeepsNewest(h: seq<Attempt>, attempts: seq<Attempt>)
    requires |h| <= HistoryLimit
    ensures RecordAll(h, attempts) == (Reversed(attempts) + h)[..MinNat(|attempts| + |h|, HistoryLimit)]
  {
    if attempts == [] {
      assert Reversed(attempts) + h == h;
    } else {
      var init, last := attempts[..|attempts| - 1], attempts[|attempts| - 1];
      RecordAllKeepsNewest(h, init);
      var s := Reversed(init) + h;
      assert Reversed(attempts) == [last] + Reversed(init);
      assert Reversed(attempts) + h == [last] + s;
      ConsTake(last, s);
    }
  }

  // -------------------------------------------------------- the best time

  /** setBestTime(prev => prev === null || reaction < prev ? reaction : prev). */
  function Improve(best: Option<int>, reaction: int): (b: Option<int>)
    ensures b.Some? && b.value <= reaction
    ensures best.Some? ==> b.value <= best.value
    ensures b.value == reaction || b == best
  {
    if best.None? || reaction < best.value then Some(reaction) else best
  }

  /** The best time after the reactions `times`, starting from `start`. */
  function BestOf(start: Option<int>, times: seq<int>): Option<int> {
    if times == [] then start
    else Improve(BestOf(start, times[..|times| - 1]), times[|times| - 1])
  }

  /** The best time is the minimum of the starting value and every reaction
      since: absent only when both are, never above any of them, and one of
      them. */
  lemma {:induction false} BestIsMinimum(start: Option<int>, times: seq<int>)
    ensures BestOf(start, times).None? <==> start.None? && times == []
    ensures BestOf(start, times).Some? ==>
      && (forall k :: 0 <= k < |times| ==> BestOf(start, times).value <= times[k])
      && (start.Some? ==> BestOf(start, times).value <= start.value)
      && (BestOf(start, times) == start || BestOf(start, times).value in times)
  {
    if times != [] {
      var init := times[..|times| - 1];
      BestIsMinimum(start, init);
      assert forall k :: 0 <= k < |init| ==> times[k] == init[k];
    }
  }

  /** One more reaction improves the best time by itself. */
  lemma BestOfStep(start: Option<int>, times: seq<int>, reaction: int)
    ensures BestOf(start, times + [reaction]) == Improve(BestOf(start, times), reaction)
  {
    assert (times + [reaction])[..|times|] == times;
  }

  // ------------------------------------------------------------- storage

  /** The effect that writes the best time through: the key holds its
      decimal text when there is one and is removed otherwise; no other key
      is touched. */
  function Persist(store: map<string, string>, best: Option<int>): (s: map<string, string>)
    ensures BestTimeKey in s <==> best.Some?
    ensures best.Some? ==> s[BestTimeKey] == IntToDecimal(best.value)
    ensures forall k :: k != BestTimeKey ==> (k in s <==> k in store)
    ensures forall k :: k != BestTimeKey && k in s ==> s[k] == store[k]
  {
    match best
    case Some(t) => store[BestTimeKey := IntToDecimal(t)]
    case None => store - {BestTimeKey}
  }

  /** The load on mount: parseInt of the stored text when the key holds a
      non-empty one, kept only when it is a number. */
  function LoadBest(store: map<string, string>): (best: Option<int>)
    ensures BestTimeKey !in store || store[BestTimeKey] == "" ==> best.None?
  {
    if BestTimeKey in store && store[BestTimeKey] != "" then ParseInt(store[BestTimeKey]) else None
  }

  /** What is written is what is read back on the next visit. */
  lemma PersistThenLoad(store: map<string, string>, best: Option<int>)
    ensures LoadBest(Persist(store, best)) == best
  {
    if best.Some? {
      DecimalRoundTrip(best.value);
    }
  }

  // ------------------------------------------------------------- the screen

  /** The state of the game screen. Each handler names in its modifies
      clause the fields it may change; every other field keeps its value. */
  class ReactionApp {
    var gameState: GameState
    var difficulty: Difficulty
    var history: seq<Attempt>
    var bestTime: Option<int>
    var delayPool: seq<int>
    /** A stimulus timer is set and has neither fired nor been cleared. */
    var timerPending: bool
    /** The delay (ms) of the pending timer. */
    var pendingDelay: int
    /** performance.now() when the stimulus appeared, in microseconds. */
    var startTime: int
    var currentResult: Option<int>
    var isSettingsOpen: bool
    var introStage: nat
    /** The local storage, key to text. */
    var storage: map<string, string>
    var news: seq<NewsItem>
    var isNewsLoading: bool
    var newsError: Option<string>

    /** The best time loaded on mount or, after a reset, none. */
    ghost var loadedBest: Option<int>
    /** The reactions recorded since then, oldest first. */
    ghost var sinceReset: seq<int>

    /** The intro is running or the settings dialog is open: clicks and
        starts are ignored. */
    predicate Locked()
      reads this`isSettingsOpen, this`introStage
    {
      isSettingsOpen || introStage < IntroDone
    }

    /** The pool holds ten delays of the current difficulty's window. */
    ghost predicate PoolValid()
      reads this`delayPool, this`difficulty
    {
      && |delayPool| == DelayPoolSize
      && forall i :: 0 <= i < |delayPool| ==> InWindow(difficulty, delayPool[i])
    }

    /** A timer is pending exactly while waiting, with a delay from the
        pool; a result is shown only with a value. */
    ghost predicate RoundValid()
      reads this`gameState, this`timerPending, this`pendingDelay, this`delayPool, this`currentResult
    {
      && (timerPending <==> gameState == Waiting)
      && (timerPending ==> pendingDelay in delayPool)
      && (gameState == Result ==> currentResult.Some?)
    }

    /** The best time is the running minimum since the load or the last
        reset, and storage holds its decimal text exactly when there is one. */
    ghost predicate BestValid()
      reads this`bestTime, this`storage, this`loadedBest, this`sinceReset
    {
      && (BestTimeKey in storage <==> bestTime.Some?)
      && (bestTime.Some? ==> storage[BestTimeKey] == IntToDecimal(bestTime.value))
      && bestTime == BestOf(loadedBest, sinceReset)
    }

    ghost predicate Valid()
      reads this
    {
      && PoolValid()
      && RoundValid()
      && |history| <= HistoryLimit
      && introStage <= IntroDone
      && BestValid()
    }

    /** The first render and the mount effects: the best time is loaded from
        storage and written back (an unreadable value is removed), and the
        pool of the default difficulty, Medium, is generated. */
    constructor(store: map<string, string>, draws: seq<RandomDraw>)
      requires |draws| == DelayPoolSize
      ensures Valid()
      ensures gameState == Idle && difficulty == Medium && history == []
      ensures bestTime == LoadBest(store) && storage == Persist(store, LoadBest(store))
      ensures delayPool == GeneratePool(Medium, draws)
      ensures !timerPending && currentResult.None? && !isSettingsOpen && introStage == 0
      ensures news == [] && !isNewsLoading && newsError.None?
    {
      var best := LoadBest(store);
      gameState := Idle;
      difficulty := Medium;
      history := [];
      bestTime := best;
      delayPool := GeneratePool(Medium, draws);
      timerPending := false;
      pendingDelay := 0;
      startTime := 0;
      currentResult := None;
      isSettingsOpen := false;
      introStage := 0;
      storage := Persist(store, best);
      news := [];
      isNewsLoading := false;
      newsError := None;
      loadedBest := best;
      sinceReset := [];
    }

    /** One of the intro timers fires. */
    method AdvanceIntro()
      requires Valid() && introStage < IntroDone
      modifies this`introStage
      ensures Valid()
      ensures introStage == old(introStage) + 1
    {
      introStage := introStage + 1;
    }

    /** A difficulty button, drawn only in Idle: the difficulty is set and,
        when it changed, the pool effect draws a new pool. */
    method SetDifficulty(d: Difficulty, draws: seq<RandomDraw>) returns (cue: Audio.ToneEvent)
      requires Valid() && |draws| == DelayPoolSize && gameState == Idle
      modifies this`difficulty, this`delayPool
      ensures Valid()
      ensures difficulty == d
      ensures delayPool == if d != old(difficulty) then GeneratePool(d, draws) else old(delayPool)
      ensures cue == Audio.Tick
    {
      if d != difficulty {
        delayPool := GeneratePool(d, draws);
      }
      difficulty := d;
      cue := Audio.Tick;
    }

    method OpenSettings() returns (cue: Audio.ToneEvent)
      requires Valid()
      modifies this`isSettingsOpen
      ensures Valid()
      ensures isSettingsOpen && Locked()
      ensures cue == Audio.Tick
    {
      isSettingsOpen := true;
      cue := Audio.Tick;
    }

    method CloseSettings()
      requires Valid()
      modifies this`isSettingsOpen
      ensures Valid()
      ensures !isSettingsOpen
    {
      isSettingsOpen := false;
    }

    /** handleStart, reached from a click in Idle, Result or TooSoon: unless
        locked, the round waits for a stimulus timer whose delay is a pool
        entry picked by `pick`. */
    method Start(pick: RandomDraw) returns (cue: Option<Audio.ToneEvent>)
      requires Valid() && gameState in {Idle, Result, TooSoon}
      modifies this`gameState, this`currentResult, this`timerPending, this`pendingDelay
      ensures Valid()
      ensures old(Locked()) ==> unchanged(this) && cue.None?
      ensures !old(Locked()) ==>
        && gameState == Waiting && currentResult.None? && timerPending
        && pendingDelay == ChooseDelay(delayPool, pick) && pendingDelay in delayPool
        && cue == Some(Audio.Start)
    {
      if Locked() {
        return None;
      }
      gameState := Waiting;
      currentResult := None;
      pendingDelay := ChooseDelay(delayPool, pick);
      timerPending := true;
      cue := Some(Audio.Start);
    }

    /** The stimulus timer fires at time `now`: the stimulus shows and the
        clock starts. The callback does not look at the lock. */
    method TimerFire(now: int)
      requires Valid() && timerPending
      modifies this`gameState, this`timerPending, this`startTime
      ensures Valid()
      ensures gameState == Active && !timerPending && startTime == now
    {
      gameState := Active;
      timerPending := false;
      startTime := now;
    }

    /** handleClick at performance.now() = `now` (microseconds) and
        Date.now() = `epochMs`. Locked, nothing happens. Waiting, the round
        is lost and the timer cleared, with nothing recorded. Active, the
        reaction Math.round((now - start) / 1000) ms is shown, put at the
        head of the history and kept as the best time when it beats it.
        Otherwise a new round starts. */
    method Click(now: int, epochMs: int, pick: RandomDraw) returns (cue: Option<Audio.ToneEvent>)
      requires Valid()
      modifies this`gameState, this`currentResult, this`timerPending, this`pendingDelay
      modifies this`history, this`bestTime, this`storage, this`sinceReset
      ensures Valid()
      ensures old(Locked()) ==> unchanged(this) && cue.None?
      ensures !old(Locked()) && old(gameState) == Waiting ==>
        && gameState == TooSoon && !timerPending
        && unchanged(this`currentResult, this`pendingDelay, this`history, this`bestTime, this`storage)
        && cue == Some(Audio.Error)
      ensures !old(Locked()) && old(gameState) == Active ==>
        var reaction := RoundDiv(now - startTime, 1000);
        && gameState == Result && currentResult == Some(reaction)
        && history == Record(old(history), Attempt(epochMs, reaction))
        && bestTime == Improve(old(bestTime), reaction)
        && storage == Persist(old(storage), bestTime)
        && unchanged(this`timerPending, this`pendingDelay)
        && (now >= startTime ==> reaction >= 0)
        && cue == Some(Audio.Success)
      ensures !old(Locked()) && old(gameState) in {Idle, Result, TooSoon} ==>
        && gameState == Waiting && currentResult.None? && timerPending
        && pendingDelay == ChooseDelay(delayPool, pick)
        && unchanged(this`history, this`bestTime, this`storage)
        && cue == Some(Audio.Start)
    {
      if Locked() {
        return None;
      }
      if gameState == Waiting {
        cue := Abort();
      } else if gameState == Active {
        cue := Finish(now, epochMs);
      } else {
        cue := Start(pick);
      }
    }

    /** A click while waiting: the round is lost, the timer cleared. */
    method Abort() returns (cue: Option<Audio.ToneEvent>)
      requires Valid() && gameState == Waiting
      modifies this`gameState, this`timerPending
      ensures Valid()
      ensures gameState == TooSoon && !timerPending
      ensures cue == Some(Audio.Error)
    {
      timerPending := false;
      gameState := TooSoon;
      cue := Some(Audio.Error);
    }

    /** A click on the stimulus: the reaction is shown, recorded and kept
        as the best time when it beats it. */
    method Finish(now: int, epochMs: int) returns (cue: Option<Audio.ToneEvent>)
      requires Valid() && gameState == Active
      modifies this`gameState, this`currentResult, this`history, this`bestTime, this`storage, this`sinceReset
      ensures Valid()
      ensures var reaction := RoundDiv(now - startTime, 1000);
        && gameState == Result && currentResult == Some(reaction)
        && history == Record(old(history), Attempt(epochMs, reaction))
        && bestTime == Improve(old(bestTime), reaction)
        && storage == Persist(old(storage), bestTime)
        && (now >= startTime ==> reaction >= 0)
      ensures cue == Some(Audio.Success)
    {
      var reaction := RoundDiv(now - startTime, 1000);
      if now >= startTime {
        RoundDivWithin(now - startTime, 1000, 0, now - startTime);
      }
      ShowResult(reaction, epochMs);
      KeepBest(reaction);
      cue := Some(Audio.Success);
    }

    /** The result of a finished round shown and put at the head of the
        history. */
    method ShowResult(reaction: int, epochMs: int)
      requires Valid() && gameState == Active
      modifies this`gameState, this`currentResult, this`history
      ensures Valid()
      ensures gameState == Result && currentResult == Some(reaction)
      ensures history == Record(old(history), Attempt(epochMs, reaction))
    {
      currentResult, gameState := Some(reaction), Result;
      history := Record(history, Attempt(epochMs, reaction));
    }

    /** The best-time update of a finished round and the storage effect it
        triggers. */
    method KeepBest(reaction: int)
      requires BestValid()
      modifies this`bestTime, this`storage, this`sinceReset
      ensures BestValid()
      ensures bestTime == Improve(old(bestTime), reaction)
      ensures storage == Persist(old(storage), bestTime)
    {
      var best := Improve(bestTime, reaction);
      BestOfStep(loadedBest, sinceReset, reaction);
      bestTime, storage := best, Persist(storage, best);
      sinceReset := sinceReset + [reaction];
    }

    /** handleResetBest once confirmed: the best time is cleared and its key
        removed from storage; the history is not touched. */
    method ResetBest() returns (cue: Audio.ToneEvent)
      requires Valid()
      modifies this`bestTime, this`storage, this`loadedBest, this`sinceReset
      ensures Valid()
      ensures bestTime.None? && storage == Persist(old(storage), None)
      ensures cue == Audio.Error
    {
      bestTime := None;
      storage := Persist(storage, None);
      loadedBest := None;
      sinceReset := [];
      cue := Audio.Error;
    }

    /** fetchNews with the API key and the service's reply: loading ends,
        the items replace the news on success, and on failure the news stays
        and the error message is kept. */
    method FetchNews(apiKey: Option<string>, reply: Reply)
      requires Valid()
      modifies this`news, this`isNewsLoading, this`newsError
      ensures Valid()
      ensures var r := FetchOutcome(apiKey, reply);
        && !isNewsLoading
        && news == (if r.Ok? then r.value else old(news))
        && newsError == (if r.Ok? then None else Some(r.error))
    {
      ShowNews(FetchOutcome(apiKey, reply));
    }

    /** The end of fetchNews, given what its try block produced. */
    method ShowNews(r: Outcome<seq<NewsItem>, string>)
      requires Valid()
      modifies this`news, this`isNewsLoading, this`newsError
      ensures Valid()
      ensures !isNewsLoading
      ensures news == (if r.Ok? then r.value else old(news))
      ensures newsError == (if r.Ok? then None else Some(r.error))
    {
      isNewsLoading, newsError := true, None;
      if r.Ok? {
        news := r.value;
      } else {
        newsError := Some(r.error);
      }
      isNewsLoading := false;
    }
  }
}
