/**
 * The asynchronous downloader of one attachment: a bounded retry loop over
 * fetch attempts, and the classification of each attempt into a final
 * outcome. The network and the save into the catalog are an oracle that
 * says how attempt number n ended.
 */
module Download {
  import opened Wrappers

  /** How one fetch attempt ended. */
  datatype Attempt =
    | Transient          // a read timeout, a connect timeout or a read error
    | HttpStatus(code: int)  // the server answered with an error status
    | OtherError         // any other exception, the save call's own included
    | Fetched(saved: bool)   // the body arrived; `saved` is what the save call returned

  /** What a download task reports. */
  datatype Outcome = Success | NotFound | Failed

  const MaxAttempts: nat := 9

  /** The string the task returns for an outcome. */
  function Label(o: Outcome): (s: string)
    ensures s in {"success", "404", "failed"}
    ensures s == "success" <==> o == Success
    ensures s == "404" <==> o == NotFound
  {
    match o
    case Success => "success"
    case NotFound => "404"
    case Failed => "failed"
  }

  /** A present and non-empty bearer token. */
  predicate HasToken(token: Option<string>)
  {
    token.Some? && token.value != ""
  }

  /**
   * What one attempt decides: None means "sleep and retry", Some(o) ends the
   * task with outcome o.
   */
  function Verdict(a: Attempt): (v: Option<Outcome>)
    ensures v.None? <==> a.Transient?
    ensures v == Some(NotFound) <==> a == HttpStatus(404)
    ensures v == Some(Success) <==> a == Fetched(true)
  {
    match a
    case Transient => None
    case HttpStatus(code) => if code == 404 then Some(NotFound) else Some(Failed)
    case OtherError => Some(Failed)
    case Fetched(saved) => if saved then Some(Success) else Some(Failed)
  }

  /**
   * What a download task reports, given the oracle: `fetch(n)` is how attempt
   * number n ends and `tries` is the number of attempts made. Without a token
   * nothing is attempted; otherwise every attempt but the last one timed out,
   * and the last one either decided the outcome or was the ninth timeout.
   */
  ghost predicate Downloaded(token: Option<string>, fetch: nat -> Attempt, outcome: Outcome, tries: nat)
  {
    && (!HasToken(token) ==> outcome == Failed && tries == 0)
    && (HasToken(token) ==> 1 <= tries <= MaxAttempts)
    && (forall n :: 1 <= n < tries ==> fetch(n).Transient?)
    && (HasToken(token) && Verdict(fetch(tries)).Some? ==> outcome == Verdict(fetch(tries)).value)
    && (HasToken(token) && Verdict(fetch(tries)).None? ==> tries == MaxAttempts && outcome == Failed)
  }

  /** The retry loop of one download task. */
  method DownloadAndSave(token: Option<string>, fetch: nat -> Attempt) returns (outcome: Outcome, tries: nat)
    ensures Downloaded(token, fetch, outcome, tries)
  {
    outcome, tries := Failed, 0;
    if !HasToken(token) {
      return;
    }
    for n := 1 to MaxAttempts + 1
      invariant tries == n - 1
      invariant forall k :: 1 <= k < n ==> fetch(k).Transient?
      invariant outcome == Failed
    {
      tries := n;
      match fetch(n) {
        case Transient =>
          // the task sleeps and tries again; after the ninth attempt the loop
          // is over and the task reports a failure
        case HttpStatus(code) =>
          outcome := if code == 404 then NotFound else Failed;
          return;
        case OtherError =>
          outcome := Failed;
          return;
        case Fetched(saved) =>
          outcome := if saved then Success else Failed;
          return;
      }
    }
  }

  /**
   * The first attempt that does not time out ends the task with its own
   * verdict: a 404 gives NotFound, any other status or error gives Failed,
   * and a completed fetch gives Success exactly when the save succeeded.
   */
  lemma FirstDecisiveAttempt(token: Option<string>, fetch: nat -> Attempt, outcome: Outcome, tries: nat, j: nat)
    requires Downloaded(token, fetch, outcome, tries)
    requires HasToken(token)
    requires 1 <= j <= MaxAttempts && !fetch(j).Transient?
    requires forall n :: 1 <= n < j ==> fetch(n).Transient?
    ensures tries == j
    ensures outcome == Verdict(fetch(j)).value
  {
  }

  /** Nine timeouts in a row: nine attempts, then a failure. */
  lemma AllAttemptsTimeOut(token: Option<string>, fetch: nat -> Attempt, outcome: Outcome, tries: nat)
    requires Downloaded(token, fetch, outcome, tries)
    requires HasToken(token)
    requires forall n :: 1 <= n <= MaxAttempts ==> fetch(n).Transient?
    ensures tries == MaxAttempts && outcome == Failed
  {
  }

  /** The oracle determines the task: two runs on the same answers report the same. */
  lemma DownloadDeterministic(token: Option<string>, fetch: nat -> Attempt,
                              o1: Outcome, t1: nat, o2: Outcome, t2: nat)
    requires Downloaded(token, fetch, o1, t1) && Downloaded(token, fetch, o2, t2)
    ensures o1 == o2 && t1 == t2
  {
  }
}
