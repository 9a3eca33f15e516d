/**
The token counts an upstream reports, brought into the six billed categories: totals with cached and reasoning tokens
as parts of them, or separate prompt counts with cache writes split by lifetime.
*/
module TokenReports {
  import opened Wrappers
  import opened Accounting
  import Pricing
  import Failover

  /** The numbers of a usage payload after its aliases are merged; `anthropic` tells which prompt form it uses. */
  datatype Payload = Payload(anthropic: bool, prompt: Option<int>, cacheRead: Option<int>, cacheWrite: Option<int>,
                             write5m: Option<int>, write1h: Option<int>, completion: Option<int>,
                             reasoning: Option<int>)

  function OrZero(v: Option<int>): int { if v.Some? then v.value else 0 }

  /** A part, if reported, is between zero and what it is a part of. */
  predicate Fits(part: Option<int>, whole: int) { part.Some? ==> 0 <= part.value <= whole }

  function TokenPair(total: Option<int>, subset: Option<int>): Option<(int, int)> {
    if total.None? || total.value < 0 then None
    else if !Fits(subset, total.value) then None
    else Some((total.value - OrZero(subset), OrZero(subset)))
  }

  /** The prompt as uncached, cache reads and cache writes; the loop takes each part off what remains. */
  method TokenGroups(total: Option<int>, subsets: seq<Option<int>>) returns (groups: Option<(int, int, int)>)
    requires |subsets| == 2
    ensures groups == Groups(total, subsets[0], subsets[1])
  {
    if total.None? || total.value < 0 {
      return None;
    }
    var values, remaining := [0, 0], total.value;
    for i := 0 to 2
      invariant |values| == 2 && remaining >= 0
      invariant i == 0 ==> values == [0, 0] && remaining == total.value
      invariant i == 1 ==> Fits(subsets[0], total.value) && values == [OrZero(subsets[0]), 0]
      invariant i == 1 ==> remaining == total.value - OrZero(subsets[0])
      invariant i == 2 ==> Groups(total, subsets[0], subsets[1]) == Some((remaining, values[0], values[1]))
    {
      if subsets[i].None? {
        continue;
      }
      if subsets[i].value < 0 || subsets[i].value > remaining {
        return None;
      }
      values := values[i := subsets[i].value];
      remaining := remaining - subsets[i].value;
    }
    return Some((remaining, values[0], values[1]));
  }

  function Groups(total: Option<int>, read: Option<int>, write: Option<int>): Option<(int, int, int)> {
    if total.None? || total.value < 0 then None
    else if !Fits(read, total.value) || !Fits(write, total.value - OrZero(read)) then None
    else Some((total.value - OrZero(read) - OrZero(write), OrZero(read), OrZero(write)))
  }

  /** Prompt counts that stand side by side, with the cache writes split into five minutes and one hour. */
  function SplitWrites(p: Payload): Option<(int, int, int, int)> {
    var input, read, creation := OrZero(p.prompt), OrZero(p.cacheRead), OrZero(p.cacheWrite);
    var five, hour := OrZero(p.write5m), OrZero(p.write1h);
    if input < 0 || read < 0 || creation < 0 || five < 0 || hour < 0 then None
    else if five > creation || hour > creation - five then None
    else if five == 0 && hour == 0 then Some((input, read, creation, 0))
    else if five + hour != creation then None
    else Some((input, read, five, hour))
  }

  /** The usage a payload is billed by; a payload that does not add up reports nothing. */
  function Report(p: Payload): Reported {
    var prompt :=
      if p.anthropic then SplitWrites(p)
      else match Groups(p.prompt, p.cacheRead, p.cacheWrite)
        case None => None
        case Some((input, read, write)) => Some((input, read, write, 0));
    var completion := TokenPair(p.completion, p.reasoning);
    if prompt.None? || completion.None? then Failover.NO_TOKENS
    else
      Reported(Some(prompt.value.0), Some(prompt.value.1), Some(prompt.value.2), Some(prompt.value.3),
               Some(completion.value.0), Some(completion.value.1))
  }

  /** All the prompt tokens a payload tells of. */
  function PromptTotal(p: Payload): int {
    if p.anthropic then OrZero(p.prompt) + OrZero(p.cacheRead) + OrZero(p.cacheWrite) else OrZero(p.prompt)
  }

  /** A usage that is billed bills every reported token exactly once: no category is negative, the prompt categories add
      up to the reported prompt and the completion categories to the reported completion. */
  lemma EveryTokenIsBilledOnce(p: Payload)
    requires Complete(Report(p))
    ensures var u := Billable(Report(p));
      && Pricing.ValidUsage(u)
      && u.input + u.cacheRead + u.cacheWrite + u.cacheWrite1H == PromptTotal(p)
      && p.completion.Some? && u.output + u.reasoning == p.completion.value
      && u.cacheRead == OrZero(p.cacheRead) && u.reasoning == OrZero(p.reasoning)
  {
  }

  /** And every category is billed for what was reported as its own: uncached input, cache reads, cache writes by
      lifetime (all of them short-lived when no lifetime is told), output without reasoning, and reasoning. */
  lemma EveryCategoryIsItsOwn(p: Payload)
    requires Complete(Report(p))
    ensures var u := Billable(Report(p));
      var split := OrZero(p.write5m) != 0 || OrZero(p.write1h) != 0;
      && u.cacheRead == OrZero(p.cacheRead)
      && u.reasoning == OrZero(p.reasoning) && u.output == OrZero(p.completion) - OrZero(p.reasoning)
      && u.input == (if p.anthropic then OrZero(p.prompt)
                     else OrZero(p.prompt) - OrZero(p.cacheRead) - OrZero(p.cacheWrite))
      && u.cacheWrite == (if p.anthropic && split then OrZero(p.write5m) else OrZero(p.cacheWrite))
      && u.cacheWrite1H == (if p.anthropic && split then OrZero(p.write1h) else 0)
  {
  }

  /** The payload adds up: every part fits its whole, and cache writes are not split, or split completely. */
  predicate AddsUp(p: Payload) {
    && p.completion.Some? && p.completion.value >= 0 && Fits(p.reasoning, p.completion.value)
    && if p.anthropic then
         && OrZero(p.prompt) >= 0 && OrZero(p.cacheRead) >= 0 && OrZero(p.cacheWrite) >= 0
         && OrZero(p.write5m) >= 0 && OrZero(p.write1h) >= 0
         && OrZero(p.write5m) + OrZero(p.write1h) in {0, OrZero(p.cacheWrite)}
       else
         && p.prompt.Some? && p.prompt.value >= 0
         && Fits(p.cacheRead, p.prompt.value) && Fits(p.cacheWrite, p.prompt.value - OrZero(p.cacheRead))
  }

  /** A payload is billed as reported exactly when it adds up and tells of any token at all; otherwise the request falls
      back on its reserved maximum. */
  lemma CompleteIff(p: Payload)
    ensures Complete(Report(p)) <==> AddsUp(p) && PromptTotal(p) + p.completion.value > 0
  {
  }
}
