/** The rate-limit retry loop around `notion.getPage`: up to three calls,
    retrying only errors that look like HTTP 429, with an exponential delay. */
module Retry {
  import opened Wrappers

  /** A thrown error: its optional `message` and optional `status`. */
  datatype NotionError = NotionError(message: Option<string>, status: Option<int>)

  const MaxAttempts: nat := 3

  /** `s.includes(sub)`, computed by scanning the suffixes of `s`. */
  function Includes(s: string, sub: string): bool
    decreases |s|
  {
    if sub <= s then true else if s == [] then false else Includes(s[1..], sub)
  }

  /** `sub` occurs in `s` starting at position `i`. */
  predicate OccursAt(s: string, sub: string, i: int) {
    0 <= i <= |s| - |sub| && s[i..i + |sub|] == sub
  }

  /** An occurrence at position `i` is found by the scan. */
  lemma {:induction false} OccursAtIncludes(s: string, sub: string, i: int)
    requires OccursAt(s, sub, i)
    ensures Includes(s, sub)
    decreases |s|
  {
    if i == 0 {
      assert s[..|sub|] == sub;
    } else {
      assert s[1..][i - 1..i - 1 + |sub|] == s[i..i + |sub|];
      OccursAtIncludes(s[1..], sub, i - 1);
    }
  }

  /** A successful scan points at an occurrence. */
  lemma {:induction false} IncludesOccurs(s: string, sub: string) returns (i: int)
    requires Includes(s, sub)
    ensures OccursAt(s, sub, i)
    decreases |s|
  {
    if sub <= s {
      i := 0;
      assert s[0..|sub|] == sub;
    } else {
      var j := IncludesOccurs(s[1..], sub);
      assert s[1..][j..j + |sub|] == s[j + 1..j + 1 + |sub|];
      i := j + 1;
    }
  }

  /** `Includes` agrees with "sub occurs at some position of s". */
  lemma IncludesIff(s: string, sub: string)
    ensures Includes(s, sub) <==> exists i :: OccursAt(s, sub, i)
  {
    if Includes(s, sub) {
      var i := IncludesOccurs(s, sub);
    }
    if exists i :: OccursAt(s, sub, i) {
      var i :| OccursAt(s, sub, i);
      OccursAtIncludes(s, sub, i);
    }
  }

  /** The error is treated as a rate limit: its message mentions "429" or
      "Too Many Requests", or its status is 429. */
  function Is429Error(e: NotionError): (b: bool)
    ensures b <==> (e.message.Some? && ((exists i :: OccursAt(e.message.value, "429", i))
                                        || exists i :: OccursAt(e.message.value, "Too Many Requests", i)))
                   || e.status == Some(429)
  {
    if e.message.Some? then
      IncludesIff(e.message.value, "429");
      IncludesIff(e.message.value, "Too Many Requests");
      Includes(e.message.value, "429") || Includes(e.message.value, "Too Many Requests") || e.status == Some(429)
    else
      e.status == Some(429)
  }

  predicate RateLimited<T>(r: Result<T, NotionError>) {
    r.Failure? && Is429Error(r.error)
  }

  function Pow2(k: nat): (p: nat)
    ensures p >= 1
  {
    if k == 0 then 1 else 2 * Pow2(k - 1)
  }

  /** `Math.pow(2, 4 - retries) * 2000`, for the number of retries still left. */
  function BackoffDelay(retries: nat): nat
    requires retries <= 4
  {
    Pow2(4 - retries) * 2000
  }

  /**
   * The retry loop. `call(k)` is the outcome of the k-th call (from 0) of the
   * wrapped Notion request. Returns what the last call returned, how many calls
   * were made and the delays waited, in milliseconds, between them.
   */
  method GetPageWithRetry<T>(call: nat -> Result<T, NotionError>)
    returns (result: Result<T, NotionError>, calls: nat, delays: seq<nat>)
    ensures 1 <= calls <= MaxAttempts
    ensures result == call(calls - 1)
    ensures forall k :: 0 <= k < calls - 1 ==> RateLimited(call(k))
    ensures calls < MaxAttempts ==> !RateLimited(call(calls - 1))
    ensures |delays| == calls - 1
    ensures forall k :: 0 <= k < |delays| ==> delays[k] == BackoffDelay(MaxAttempts - k)
    ensures delays == [4000, 8000][..calls - 1]
  {
    var retries: nat := 3;
    calls := 0;
    delays := [];
    while retries > 0
      invariant 1 <= retries <= 3
      invariant calls == 3 - retries
      invariant forall k :: 0 <= k < calls ==> RateLimited(call(k))
      invariant |delays| == calls
      invariant forall k :: 0 <= k < |delays| ==> delays[k] == BackoffDelay(MaxAttempts - k)
      decreases retries
    {
      var response := call(calls);
      calls := calls + 1;
      if response.Success? {
        result := response;
        break;
      }
      var err := response.error;
      if Is429Error(err) && retries > 1 {
        var delay := BackoffDelay(retries);
        delays := delays + [delay];
        retries := retries - 1;
        continue;
      }
      result := response;
      break;
    }
    assert |delays| <= 2;
    assert BackoffDelay(3) == 4000 && BackoffDelay(2) == 8000;
  }
}
