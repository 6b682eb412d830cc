/** The two locks of the bid processor: `bidCacheLock` and `outFilesLock`, as taken by
    `processBids` (with `getFiles`) and by `housekeeping`. Any number of threads may be in
    either call; the program has one of each. */
module ProcessorLocks {
  /** Where a thread stands between two lock operations. */
  datatype Pc =
    | Idle      // holds nothing
    | Batch     // processBids, holds bidCacheLock
    | Reading   // getFiles, holds outFilesLock for reading as well
    | Checked   // getFiles after RUnlock
    | Storing   // getFiles, holds outFilesLock for writing as well
    | Evicting  // housekeeping, holds bidCacheLock
    | Closing   // housekeeping, holds outFilesLock for writing as well
    | Closed    // housekeeping after Unlock

  /** `cacheLock`, `readers` and `writers` are the threads the locks have let in. */
  datatype State = State(pc: seq<Pc>, cacheLock: set<nat>, readers: set<nat>, writers: set<nat>)

  predicate Initial(s: State) {
    && (forall t | 0 <= t < |s.pc| :: s.pc[t] == Idle)
    && s.cacheLock == {} && s.readers == {} && s.writers == {}
  }

  predicate FreeForReading(s: State) { s.writers == {} }

  predicate FreeForWriting(s: State) { s.writers == {} && s.readers == {} }

  /** Thread `t` performs its next lock operation, or begins the next bid of its batch. */
  ghost predicate Step(s: State, t: nat, s': State) {
    && t < |s.pc|
    && match s.pc[t]
       case Idle =>
         && s.cacheLock == {}
         && (s' == s.(pc := s.pc[t := Batch], cacheLock := {t})
           || s' == s.(pc := s.pc[t := Evicting], cacheLock := {t}))
       case Batch =>
         || (FreeForReading(s) && s' == s.(pc := s.pc[t := Reading], readers := s.readers + {t}))
         || s' == s.(pc := s.pc[t := Idle], cacheLock := s.cacheLock - {t})
       case Reading => s' == s.(pc := s.pc[t := Checked], readers := s.readers - {t})
       case Checked =>
         || s' == s.(pc := s.pc[t := Batch])
         || (FreeForWriting(s) && s' == s.(pc := s.pc[t := Storing], writers := s.writers + {t}))
       case Storing => s' == s.(pc := s.pc[t := Batch], writers := s.writers - {t})
       case Evicting => FreeForWriting(s) && s' == s.(pc := s.pc[t := Closing], writers := s.writers + {t})
       case Closing => s' == s.(pc := s.pc[t := Closed], writers := s.writers - {t})
       case Closed => s' == s.(pc := s.pc[t := Idle], cacheLock := s.cacheLock - {t})
  }

  /** The locks hold exactly the threads whose position says so, and `outFilesLock` is only
      ever held by the one thread inside `bidCacheLock`. */
  ghost predicate Inv(s: State) {
    && (forall t: nat :: t in s.cacheLock <==> t < |s.pc| && s.pc[t] != Idle)
    && (forall t: nat :: t in s.readers <==> t < |s.pc| && s.pc[t] == Reading)
    && (forall t: nat :: t in s.writers <==> t < |s.pc| && s.pc[t] in {Storing, Closing})
    && (forall t, u | t in s.cacheLock && u in s.cacheLock :: t == u)
  }

  /** `who[i]` is the thread that takes step `i`. */
  ghost predicate IsRun(run: seq<State>, who: seq<nat>) {
    && |run| == |who| + 1 && Initial(run[0])
    && forall i | 0 <= i < |who| :: Step(run[i], who[i], run[i + 1])
  }

  lemma StepKeepsInv(s: State, t: nat, s': State)
    requires Inv(s) && Step(s, t, s')
    ensures Inv(s') && |s'.pc| == |s.pc|
  {
  }

  lemma {:induction false} RunsKeepInv(run: seq<State>, who: seq<nat>)
    requires IsRun(run, who)
    ensures Inv(run[|who|]) && |run[|who|].pc| == |run[0].pc|
    decreases |who|
  {
    if who != [] {
      var n := |who| - 1;
      RunsKeepInv(run[..n + 1], who[..n]);
      StepKeepsInv(run[n], who[n], run[n + 1]);
    }
  }

  /** A step of thread `t` that makes progress in its call. */
  function Next(s: State, t: nat): State
    requires t < |s.pc|
  {
    match s.pc[t]
    case Idle => s.(pc := s.pc[t := Batch], cacheLock := {t})
    case Batch => s.(pc := s.pc[t := Reading], readers := s.readers + {t})
    case Reading => s.(pc := s.pc[t := Checked], readers := s.readers - {t})
    case Checked => s.(pc := s.pc[t := Storing], writers := s.writers + {t})
    case Storing => s.(pc := s.pc[t := Batch], writers := s.writers - {t})
    case Evicting => s.(pc := s.pc[t := Closing], writers := s.writers + {t})
    case Closing => s.(pc := s.pc[t := Closed], writers := s.writers - {t})
    case Closed => s.(pc := s.pc[t := Idle], cacheLock := s.cacheLock - {t})
  }

  /** No deadlock: in every reachable state the thread inside `bidCacheLock` never waits for
      the other lock, wherever it stands, and if there is no such thread every thread can enter. */
  lemma NeverBlocked(run: seq<State>, who: seq<nat>, t: nat)
    requires IsRun(run, who)
    requires var s := run[|who|]; t < |s.pc| && (s.pc[t] != Idle || s.cacheLock == {})
    ensures Step(run[|who|], t, Next(run[|who|], t))
  {
    RunsKeepInv(run, who);
    var s := run[|who|];
    if s.pc[t] != Idle {
      assert t in s.cacheLock;
      forall u | u in s.readers + s.writers ensures u == t { assert u in s.cacheLock; }
    }
  }

  /** Calls never overlap: at most one thread is inside either of them, and only that thread
      holds `outFilesLock`. */
  lemma CallsAreAtomic(run: seq<State>, who: seq<nat>, t: nat, u: nat)
    requires IsRun(run, who)
    requires var s := run[|who|]; t < |s.pc| && u < |s.pc| && s.pc[t] != Idle && s.pc[u] != Idle
    ensures t == u && run[|who|].readers + run[|who|].writers <= {t}
  {
    RunsKeepInv(run, who);
    var s := run[|who|];
    assert t in s.cacheLock && u in s.cacheLock;
    forall v | v in s.readers + s.writers ensures v == t { assert v in s.cacheLock; }
  }
}
