/** The language-model gateway: choosing a model from the provider's listing and the
    bounded retry loop around one completion request. The provider is a pair of oracles:
    what the model listing returns at each moment it is asked, and how the completion
    endpoint answers attempt `k` made with a given model. */
module LlmGateway {
  import opened Wrappers
  import opened Strings

  /** The model families tried, best first, when the preferred model is not listed. */
  const Families: seq<string> := ["llama-3.1", "llama-3", "llama3", "llama", "gpt-oss", "gpt", "mixtral", "gemma"]

  /** Python's `preferred or None`: an empty name counts as no name. */
  function OrNone(preferred: Option<string>): (r: Option<string>)
    ensures r.Some? <==> preferred.Some? && preferred.value != ""
    ensures r.Some? ==> r == preferred
  {
    if preferred.Some? && preferred.value != "" then preferred else None
  }

  /** The index of the first name containing `fam`, if there is one. */
  function FirstContaining(names: seq<string>, fam: string): (r: Option<nat>)
    ensures r.Some? ==>
      r.value < |names| && Contains(names[r.value], fam) && forall j | 0 <= j < r.value :: !Contains(names[j], fam)
    ensures r.None? ==> forall j | 0 <= j < |names| :: !Contains(names[j], fam)
  {
    if names == [] then None
    else if Contains(names[0], fam) then Some(0)
    else
      match FirstContaining(names[1..], fam)
      case None => None
      case Some(i) => Some(i + 1)
  }

  /** The first name containing the earliest family, among `Families[f..]`, that any name
      contains. */
  function FamilyMatch(names: seq<string>, f: nat): Option<string>
    decreases |Families| - f
  {
    if f >= |Families| then None
    else
      match FirstContaining(names, Families[f])
      case Some(i) => Some(names[i])
      case None => FamilyMatch(names, f + 1)
  }

  /** What `pick_fallback_model(preferred)` returns when the model listing gave `listing`
      (`None` when listing raised, otherwise the extracted model names). */
  function PickFallback(listing: Option<seq<string>>, preferred: Option<string>): Option<string>
  {
    if listing.None? || listing.value == [] then OrNone(preferred)
    else if preferred.Some? && preferred.value != "" && preferred.value in listing.value then preferred
    else
      match FamilyMatch(listing.value, 0)
      case Some(n) => Some(n)
      case None => Some(listing.value[0])
  }

  /** `pick_fallback_model`: the preferred model when listed, else a scan of the families in
      order over the names in order, else the first name. */
  method PickFallbackModel(listing: Option<seq<string>>, preferred: Option<string>) returns (r: Option<string>)
    ensures r == PickFallback(listing, preferred)
  {
    if listing.None? {
      return OrNone(preferred);
    }
    var names := listing.value;
    if |names| == 0 {
      return OrNone(preferred);
    }
    if preferred.Some? && preferred.value != "" && preferred.value in names {
      return preferred;
    }
    var f := 0;
    while f < |Families|
      invariant 0 <= f <= |Families|
      invariant FamilyMatch(names, 0) == FamilyMatch(names, f)
    {
      var found := ScanFamily(names, Families[f]);
      if found.Some? {
        return Some(names[found.value]);
      }
      f := f + 1;
    }
    return Some(names[0]);
  }

  /** The inner scan of `pick_fallback_model`: the names in order, looking for `fam`. */
  method ScanFamily(names: seq<string>, fam: string) returns (r: Option<nat>)
    ensures r == FirstContaining(names, fam)
  {
    var i := 0;
    while i < |names|
      invariant 0 <= i <= |names|
      invariant forall j | 0 <= j < i :: !Contains(names[j], fam)
    {
      if Contains(names[i], fam) {
        FirstContainingIs(names, fam, i);
        return Some(i);
      }
      i := i + 1;
    }
    FirstContainingIs(names, fam, |names|);
    return None;
  }

  /** When no name before `i` contains `fam`, the first match is at `i` if `names[i]`
      contains it, and there is none if `i` is the end. */
  lemma {:induction false} FirstContainingIs(names: seq<string>, fam: string, i: nat)
    requires i <= |names|
    requires forall j | 0 <= j < i :: !Contains(names[j], fam)
    requires i < |names| ==> Contains(names[i], fam)
    ensures FirstContaining(names, fam) == if i < |names| then Some(i) else None
  {
    if names != [] && i > 0 {
      FirstContainingIs(names[1..], fam, i - 1);
    }
  }

  /** Some name contains some family from `Families[f..]`. */
  predicate AnyFamilyFrom(names: seq<string>, f: nat)
  {
    exists g, j | f <= g < |Families| && 0 <= j < |names| :: Contains(names[j], Families[g])
  }

  /** `n` is `names[i]`, contains family `g`, no name contains an earlier family from `f`
      on, and no earlier name contains `g`. */
  predicate EarliestFamilyMatch(names: seq<string>, f: nat, g: nat, i: nat, n: string)
  {
    f <= g < |Families| && i < |names| && n == names[i] && Contains(n, Families[g])
    && (forall h, j | f <= h < g && 0 <= j < |names| :: !Contains(names[j], Families[h]))
    && (forall j | 0 <= j < i :: !Contains(names[j], Families[g]))
  }

  /** The family scan finds a name exactly when some name contains a family. */
  lemma {:induction false} FamilyMatchFinds(names: seq<string>, f: nat)
    ensures FamilyMatch(names, f).Some? <==> AnyFamilyFrom(names, f)
    decreases |Families| - f
  {
    if f < |Families| && FirstContaining(names, Families[f]).None? {
      FamilyMatchFinds(names, f + 1);
      if AnyFamilyFrom(names, f) {
        var g, j :| f <= g < |Families| && 0 <= j < |names| && Contains(names[j], Families[g]);
        assert g != f;
        assert AnyFamilyFrom(names, f + 1);
      }
    }
  }

  /** What the family scan finds is the first name holding the earliest family any name
      holds. */
  lemma {:induction false} FamilyMatchEarliest(names: seq<string>, f: nat)
    requires FamilyMatch(names, f).Some?
    ensures exists g: nat, i: nat | f <= g < |Families| && i < |names| ::
      EarliestFamilyMatch(names, f, g, i, FamilyMatch(names, f).value)
    decreases |Families| - f
  {
    var first := FirstContaining(names, Families[f]);
    if first.Some? {
      assert EarliestFamilyMatch(names, f, f, first.value, names[first.value]);
    } else {
      FamilyMatchEarliest(names, f + 1);
      var g: nat, i: nat :| f + 1 <= g < |Families| && i < |names| && EarliestFamilyMatch(names, f + 1, g, i, FamilyMatch(names, f).value);
      assert EarliestFamilyMatch(names, f, g, i, FamilyMatch(names, f).value);
    }
  }

  /** The promises of `pick_fallback_model`: with no names (or a failing listing) it falls
      back to `preferred or None`; a listed preferred model wins; otherwise the result is a
      listed name, the earliest-family match when there is one, else the first name. */
  lemma PickFallbackSpec(listing: Option<seq<string>>, preferred: Option<string>)
    ensures listing.None? || listing.value == [] ==> PickFallback(listing, preferred) == OrNone(preferred)
    ensures listing.Some? && preferred.Some? && preferred.value != "" && preferred.value in listing.value ==>
      PickFallback(listing, preferred) == preferred
    ensures listing.Some? && listing.value != [] ==>
      PickFallback(listing, preferred).Some? && PickFallback(listing, preferred).value in listing.value
    ensures listing.Some? && listing.value != [] && !(preferred.Some? && preferred.value in listing.value) ==>
      if AnyFamilyFrom(listing.value, 0)
      then exists g: nat, i: nat | g < |Families| && i < |listing.value| ::
        EarliestFamilyMatch(listing.value, 0, g, i, PickFallback(listing, preferred).value)
      else PickFallback(listing, preferred) == Some(listing.value[0])
  {
    if listing.Some? && listing.value != [] {
      FamilyMatchFinds(listing.value, 0);
      if FamilyMatch(listing.value, 0).Some? {
        FamilyMatchEarliest(listing.value, 0);
        var g: nat, i: nat :| g < |Families| && i < |listing.value|
          && EarliestFamilyMatch(listing.value, 0, g, i, FamilyMatch(listing.value, 0).value);
      }
    }
  }

  /** How one completion attempt ended: a response whose extracted text may be missing, or
      an exception with its message. */
  datatype CallOutcome = Completed(text: Option<string>) | Failed(message: string)

  /** The provider, as oracles: `listing(k)` is what the model listing returns when it is
      consulted before attempt `k`, and `respond(k, model)` is how attempt `k` made with
      `model` ends. */
  datatype Provider = Provider(listing: nat -> Option<seq<string>>, respond: (nat, Option<string>) -> CallOutcome)

  /** The `ok` and `text` fields of what `call_llm_summarize` returns, and how many
      attempts it made. */
  datatype GatewayResult = GatewayResult(ok: bool, text: Option<string>, attempts: nat)

  const ModelErrorKeywords: seq<string> := ["model", "not found", "decommissioned", "invalid_request", "unsupported"]

  const ThrottleKeywords: seq<string> := ["rate_limit", "tokens", "too large"]

  /** Some keyword occurs in the lower-cased message. */
  predicate MentionsAny(message: string, keywords: seq<string>)
  {
    keywords != [] && (Contains(ToLower(message), keywords[0]) || MentionsAny(message, keywords[1..]))
  }

  /** An error that makes the gateway switch to another model and retry. */
  predicate IsModelError(message: string) { MentionsAny(message, ModelErrorKeywords) }

  /** An error that makes the gateway retry with the same model. */
  predicate IsThrottled(message: string) { MentionsAny(message, ThrottleKeywords) }

  predicate Retryable(o: CallOutcome)
  {
    o.Failed? && (IsModelError(o.message) || IsThrottled(o.message))
  }

  /** The rest of the retry loop from attempt `a` on with `chosen` as the current model. */
  function RunFrom(p: Provider, retry: int, a: nat, chosen: Option<string>): GatewayResult
    decreases retry + 1 - a
  {
    if a > retry then GatewayResult(false, None, a)
    else
      match p.respond(a, chosen)
      case Completed(t) => GatewayResult(true, t, a + 1)
      case Failed(m) =>
        if IsModelError(m) then RunFrom(p, retry, a + 1, PickFallback(p.listing(a + 1), None))
        else if IsThrottled(m) then RunFrom(p, retry, a + 1, chosen)
        else GatewayResult(false, None, a + 1)
  }

  /** What `call_llm_summarize(prompt, model=model, retry=retry)` returns. */
  function Summarize(p: Provider, model: Option<string>, retry: int): GatewayResult
  {
    RunFrom(p, retry, 0, PickFallback(p.listing(0), model))
  }

  /** `call_llm_summarize`: at most `retry + 1` attempts; a model error re-picks the model
      with no preference, a throttling error retries as is, any other error gives up. */
  method CallLlmSummarize(p: Provider, model: Option<string>, retry: int) returns (r: GatewayResult)
    ensures r == Summarize(p, model, retry)
  {
    var chosen := PickFallbackModel(p.listing(0), model);
    var attempt: nat := 0;
    while attempt <= retry
      invariant RunFrom(p, retry, attempt, chosen) == Summarize(p, model, retry)
      decreases retry + 1 - attempt
    {
      var outcome := p.respond(attempt, chosen);
      match outcome {
        case Completed(t) =>
          return GatewayResult(true, t, attempt + 1);
        case Failed(m) =>
          if IsModelError(m) {
            chosen := PickFallbackModel(p.listing(attempt + 1), None);
          } else if !IsThrottled(m) {
            return GatewayResult(false, None, attempt + 1);
          }
      }
      attempt := attempt + 1;
    }
    return GatewayResult(false, None, attempt);
  }

  /** The model in use at attempt `k`, defined forwards: the pick for `model` at first, and
      a fresh pick with no preference after each attempt that failed with a model error. */
  function ChosenAt(p: Provider, model: Option<string>, k: nat): Option<string>
  {
    if k == 0 then PickFallback(p.listing(0), model)
    else
      var previous := p.respond(k - 1, ChosenAt(p, model, k - 1));
      if previous.Failed? && IsModelError(previous.message) then PickFallback(p.listing(k), None)
      else ChosenAt(p, model, k - 1)
  }

  /** How attempt `k` ends. */
  function Outcome(p: Provider, model: Option<string>, k: nat): CallOutcome
  {
    p.respond(k, ChosenAt(p, model, k))
  }

  /** `r` is what a run of the gateway that follows the attempts `Outcome(p, model, ·)` may
      return: within `retry + 1` attempts, every attempt but the last failed retryably, the
      run succeeded exactly when the last attempt completed and then carries its text, and
      a run that stopped early stopped on an error that is not retryable. */
  predicate Explains(p: Provider, model: Option<string>, retry: int, r: GatewayResult)
  {
    r.attempts <= (if retry < 0 then 0 else retry + 1)
    && (r.attempts == 0 <==> retry < 0)
    && (forall k: nat | k + 1 < r.attempts :: Retryable(Outcome(p, model, k)))
    && (r.ok <==> r.attempts > 0 && Outcome(p, model, r.attempts - 1).Completed?)
    && (r.ok ==> r.text == Outcome(p, model, r.attempts - 1).text)
    && (!r.ok ==> r.text == None)
    && (r.attempts < retry + 1 ==> r.attempts > 0 && !Retryable(Outcome(p, model, r.attempts - 1)))
  }

  lemma {:induction false} RunFromExplained(p: Provider, model: Option<string>, retry: int, a: nat)
    requires a == 0 || a <= retry + 1
    requires forall k: nat | k < a :: Retryable(Outcome(p, model, k))
    ensures Explains(p, model, retry, RunFrom(p, retry, a, ChosenAt(p, model, a)))
    decreases retry + 1 - a
  {
    var chosen := ChosenAt(p, model, a);
    if a <= retry {
      var o := p.respond(a, chosen);
      assert o == Outcome(p, model, a);
      if Retryable(o) {
        var next := if IsModelError(o.message) then PickFallback(p.listing(a + 1), None) else chosen;
        assert ChosenAt(p, model, a + 1) == next;
        assert RunFrom(p, retry, a, chosen) == RunFrom(p, retry, a + 1, next);
        RunFromExplained(p, model, retry, a + 1);
      } else {
        var r := RunFrom(p, retry, a, chosen);
        assert r.attempts == a + 1;
        assert r.ok <==> o.Completed?;
      }
    } else if a > 0 {
      assert Retryable(Outcome(p, model, a - 1));
    }
  }

  /** The retry policy of `call_llm_summarize`, stated against the attempts themselves. */
  lemma SummarizeExplained(p: Provider, model: Option<string>, retry: int)
    ensures Explains(p, model, retry, Summarize(p, model, retry))
  {
    RunFromExplained(p, model, retry, 0);
  }

  /** `call_llm_text_only`: the text when the call succeeded with a non-empty text, else "". */
  function TextOnly(r: GatewayResult): (s: string)
    ensures s != "" <==> r.ok && r.text.Some? && r.text.value != ""
    ensures s != "" ==> r.text == Some(s)
  {
    if r.ok && r.text.Some? && r.text.value != "" then r.text.value else ""
  }

  /** `call_llm_answer`: the `text` field itself, Python's None on failure. */
  function AnswerReply(r: GatewayResult): (reply: Reply)
    ensures r.text.None? ==> reply == ReturnsNone
    ensures reply.ReturnsText? ==> r.text == Some(reply.text)
  {
    if r.text.Some? then ReturnsText(r.text.value) else ReturnsNone
  }

  /** A gateway that answers at all returns the text of the attempt that completed; a
      text-only caller never sees text from a failed run. */
  lemma TextOnlyOfSummarize(p: Provider, model: Option<string>, retry: int)
    ensures var r := Summarize(p, model, retry);
      (TextOnly(r) != "" ==> r.attempts > 0 && Outcome(p, model, r.attempts - 1) == Completed(Some(TextOnly(r))))
      && (!r.ok ==> AnswerReply(r) == ReturnsNone)
  {
    SummarizeExplained(p, model, retry);
  }
}
