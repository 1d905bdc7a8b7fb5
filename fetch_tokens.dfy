/** The staleness flags of the mention list's fetches. Every started fetch
    gets an `isCurrent` flag on its promise; `latestPromiseRef` holds the most
    recent one. The flags are kept here in start order, so the last entry is
    the flag of `latestPromiseRef.current`. Resolving or failing a fetch
    changes no flag, so only starts and teardown appear in a trace. */
module FetchTokens {

  /** `latestPromiseRef.current.isCurrent = false`, when there is a latest fetch. */
  function InvalidateLatest(t: seq<bool>): (r: seq<bool>)
    ensures |r| == |t|
    ensures |t| > 0 ==> !r[|t| - 1]
    ensures forall k :: 0 <= k < |t| - 1 ==> r[k] == t[k]
  {
    if |t| == 0 then t else t[|t| - 1 := false]
  }

  /** Starting a fetch: the previous latest is marked stale and the new
      promise, marked current, becomes the latest. */
  function StartToken(t: seq<bool>): (r: seq<bool>)
    ensures |r| == |t| + 1 && r[|t|]
    ensures r[..|t|] == InvalidateLatest(t)
  {
    InvalidateLatest(t) + [true]
  }

  /** No fetch but the latest one is marked current. */
  predicate OnlyLatestCurrent(t: seq<bool>)
  {
    forall k :: 0 <= k < |t| - 1 ==> !t[k]
  }

  predicate NoneCurrent(t: seq<bool>)
  {
    forall k :: 0 <= k < |t| ==> !t[k]
  }

  /** The guard as written: `latestPromiseRef.current?.isCurrent`. It reads the
      flag of the LATEST fetch, whichever fetch is resolving. */
  predicate CommitsAsWritten(t: seq<bool>)
  {
    |t| > 0 && t[|t| - 1]
  }

  /** The guard with the resolving fetch's own flag (`currentPromise.isCurrent`). */
  predicate CommitsOwnToken(t: seq<bool>, k: nat)
  {
    k < |t| && t[k]
  }

  /** While only the latest fetch can be current, the two guards agree on the
      latest fetch and differ exactly on the superseded ones. */
  lemma GuardsAgreeOnLatest(t: seq<bool>, k: nat)
    requires OnlyLatestCurrent(t)
    ensures CommitsOwnToken(t, k) <==> CommitsAsWritten(t) && k == |t| - 1
  {
  }

  datatype TokenEvent = Start | Teardown

  function Step(t: seq<bool>, e: TokenEvent): seq<bool>
  {
    match e
    case Start => StartToken(t)
    case Teardown => InvalidateLatest(t)
  }

  function Replay(evs: seq<TokenEvent>): seq<bool>
    decreases |evs|
  {
    if evs == [] then [] else Step(Replay(evs[..|evs| - 1]), evs[|evs| - 1])
  }

  /** Both steps keep "only the latest fetch is current". */
  lemma StepKeepsOnlyLatestCurrent(t: seq<bool>, e: TokenEvent)
    requires OnlyLatestCurrent(t)
    ensures OnlyLatestCurrent(Step(t, e))
    ensures e == Teardown ==> NoneCurrent(Step(t, e))
  {
  }

  lemma {:induction false} ReplayOnlyLatestCurrent(evs: seq<TokenEvent>)
    ensures OnlyLatestCurrent(Replay(evs))
    ensures evs != [] && evs[|evs| - 1] == Teardown ==> NoneCurrent(Replay(evs))
    decreases |evs|
  {
    if evs != [] {
      ReplayOnlyLatestCurrent(evs[..|evs| - 1]);
      StepKeepsOnlyLatestCurrent(Replay(evs[..|evs| - 1]), evs[|evs| - 1]);
    }
  }

  /** With the own-token guard, a fetch that has been superseded never
      commits, in whatever order the fetches resolve: the latest started wins. */
  lemma OwnTokenLatestStartedWins(evs: seq<TokenEvent>, k: nat)
    ensures CommitsOwnToken(Replay(evs), k) ==> k == |Replay(evs)| - 1
  {
    ReplayOnlyLatestCurrent(evs);
  }

  /** After teardown nothing commits, under either guard. */
  lemma NoCommitAfterTeardown(evs: seq<TokenEvent>, k: nat)
    requires evs != [] && evs[|evs| - 1] == Teardown
    ensures !CommitsAsWritten(Replay(evs)) && !CommitsOwnToken(Replay(evs), k)
  {
    ReplayOnlyLatestCurrent(evs);
  }

  /** As written, the guard ignores which fetch resolves: once a second fetch
      has started, the first one still commits when it resolves, even after
      the second one has committed. */
  lemma StaleFetchCommitsAsWritten()
    ensures var t := Replay([Start, Start]);
      |t| == 2 && CommitsAsWritten(t) && !CommitsOwnToken(t, 0)
  {
  }

  /** In general: right after a start, every earlier fetch passes the guard
      as written, while none of them passes the own-token guard. */
  lemma {:induction false} AsWrittenCommitsEverySuperseded(evs: seq<TokenEvent>, k: nat)
    requires evs != [] && evs[|evs| - 1] == Start
    requires k < |Replay(evs)| - 1
    ensures CommitsAsWritten(Replay(evs)) && !CommitsOwnToken(Replay(evs), k)
  {
    ReplayOnlyLatestCurrent(evs);
  }
}
