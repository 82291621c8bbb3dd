/**
 * The retry loops of the ingestion scripts. What the network or the file
 * system answers on the k-th attempt is a parameter (`outcome(k)`,
 * `ok(k)`); the waits the loops would sleep are returned so that the
 * schedule can be stated.
 */
module Retry {
  import opened Wrappers

  function Pow2(n: nat): (r: nat)
    ensures r >= 1
  {
    if n == 0 then 1 else 2 * Pow2(n - 1)
  }

  function Min(a: int, b: int): int { if a <= b then a else b }

  /** What one fetch attempt gives: the body, or the message of the error it threw (network or `HTTP <status>`). */
  datatype Attempt = Body(text: string) | Threw(message: string)

  /**
   * `fetchText(url, retries = 3, backoffMs = 400)` of the catalog importer:
   * tries attempts 0..retries, returns the first body, waits
   * `backoffMs * 2^k` after a failed attempt k that is not the last, and
   * fails with `"<message> <url>"` when the last attempt fails.
   */
  method FetchText(url: string, retries: nat, backoffMs: nat, outcome: nat -> Attempt)
    returns (r: Result<string, string>, waits: seq<nat>)
    ensures r.Success? <==> exists k :: 0 <= k <= retries && outcome(k).Body?
    ensures r.Success? ==> outcome(|waits|) == Body(r.value) && |waits| <= retries
    ensures forall j :: 0 <= j < |waits| ==> outcome(j).Threw?
    ensures r.Failure? ==> r.error == outcome(retries).message + " " + url && |waits| == retries
    ensures forall j :: 0 <= j < |waits| ==> waits[j] == backoffMs * Pow2(j)
  {
    var attempt: nat := 0;
    waits := [];
    while attempt < retries && outcome(attempt).Threw?
      invariant attempt <= retries
      invariant forall j :: 0 <= j < attempt ==> outcome(j).Threw?
      invariant |waits| == attempt
      invariant forall j :: 0 <= j < attempt ==> waits[j] == backoffMs * Pow2(j)
    {
      waits := waits + [backoffMs * Pow2(attempt)];
      attempt := attempt + 1;
    }
    match outcome(attempt)
    case Body(text) =>
      r := Success(text);
    case Threw(message) =>
      r := Failure(message + " " + url);
  }

  /** `delay = Math.min(delay * 2, 2000)` starting from 100: the wait after failure k. */
  function CappedDelay(k: nat): nat { Min(100 * Pow2(k), 2000) }

  lemma CappedDelayStep(k: nat)
    ensures CappedDelay(k + 1) == Min(CappedDelay(k) * 2, 2000)
  {
  }

  lemma CappedDelayBounds(k: nat)
    ensures 100 <= CappedDelay(k) <= 2000
    ensures k >= 5 ==> CappedDelay(k) == 2000
  {
    if k >= 5 {
      Pow2Grows(k);
    }
  }

  lemma {:induction false} Pow2Grows(k: nat)
    requires k >= 5
    ensures Pow2(k) >= 32
  {
    if k > 5 { Pow2Grows(k - 1); }
  }

  /**
   * `saveProductsAtomic` of the category scraper: up to 20 renames of the
   * temporary file; after a failed attempt that is not the last it sleeps
   * the capped doubling delay; the 20th failure is re-thrown (`saved` false).
   */
  method SaveRenameOrThrow(renameOk: nat -> bool) returns (saved: bool, sleeps: seq<nat>)
    ensures saved <==> exists k :: 0 <= k < 20 && renameOk(k)
    ensures saved ==> renameOk(|sleeps|) && forall j :: 0 <= j < |sleeps| ==> !renameOk(j)
    ensures !saved ==> |sleeps| == 19
    ensures forall j :: 0 <= j < |sleeps| ==> sleeps[j] == CappedDelay(j)
  {
    var i: nat := 0;
    var delay := 100;
    sleeps := [];
    while i < 19 && !renameOk(i)
      invariant i <= 19 && |sleeps| == i && delay == CappedDelay(i)
      invariant forall j :: 0 <= j < i ==> !renameOk(j) && sleeps[j] == CappedDelay(j)
    {
      sleeps := sleeps + [delay];
      CappedDelayStep(i);
      delay := Min(delay * 2, 2000);
      i := i + 1;
    }
    saved := renameOk(i);
  }

  /** How the enrichment pass finally wrote the catalog. */
  datatype SaveOutcome = Renamed(attempt: nat) | DirectWrite

  /**
   * `saveProductsAtomic` of the enrichment pass: up to 20 renames, sleeping
   * the capped doubling delay after EVERY failed attempt (also the 20th),
   * then a direct write of the catalog file.
   */
  method SaveRenameOrWrite(renameOk: nat -> bool) returns (how: SaveOutcome, sleeps: seq<nat>)
    ensures how.Renamed? <==> exists k :: 0 <= k < 20 && renameOk(k)
    ensures how.Renamed? ==> how.attempt < 20 && renameOk(how.attempt) && |sleeps| == how.attempt
    ensures forall j :: 0 <= j < |sleeps| ==> !renameOk(j) && sleeps[j] == CappedDelay(j)
    ensures how.DirectWrite? ==> |sleeps| == 20
  {
    var i: nat := 0;
    var delay := 100;
    sleeps := [];
    while i < 20 && !renameOk(i)
      invariant i <= 20 && |sleeps| == i && delay == CappedDelay(i)
      invariant forall j :: 0 <= j < i ==> !renameOk(j) && sleeps[j] == CappedDelay(j)
    {
      sleeps := sleeps + [delay];
      CappedDelayStep(i);
      delay := Min(delay * 2, 2000);
      i := i + 1;
    }
    how := if i < 20 then Renamed(i) else DirectWrite;
  }

  /**
   * `downloadWithRetries(url, dest, retries = 3)`: attempts 0..retries,
   * stops at the first success, sleeps 300 ms after every failed attempt.
   */
  method DownloadWithRetries(retries: nat, ok: nat -> bool) returns (success: bool, sleeps: seq<nat>)
    ensures success <==> exists k :: 0 <= k <= retries && ok(k)
    ensures success ==> ok(|sleeps|) && |sleeps| <= retries
    ensures !success ==> |sleeps| == retries + 1
    ensures forall j :: 0 <= j < |sleeps| ==> !ok(j) && sleeps[j] == 300
  {
    var i: nat := 0;
    sleeps := [];
    while i <= retries && !ok(i)
      invariant i <= retries + 1 && |sleeps| == i
      invariant forall j :: 0 <= j < i ==> !ok(j) && sleeps[j] == 300
    {
      sleeps := sleeps + [300];
      i := i + 1;
    }
    success := i <= retries;
  }
}
