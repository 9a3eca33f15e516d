/** The order in which sites and keys are tried, for every run of outcomes. */
module FailoverTheorems {
  import opened Wrappers
  import opened Failover

  // ----- what an outcome calls for, by its status alone

  /** A valid answer. */
  predicate Good(o: Outcome) { o.Answered? && 200 <= o.status < 300 && o.valid }

  /** The key is at fault: it could not be used, was rejected or is spent. */
  predicate KeyFault(o: Outcome) {
    || o.BuildFailed?
    || (o.Answered? && (o.status in {401, 402, 403} || (o.status == 429 && !o.saysUnsupported)))
  }

  /** The site is at fault, and the client has seen nothing of it: the connection or the stream broke, the answer is no
      answer, the model is not there, or the status says that another site may do better. */
  predicate SiteFault(o: Outcome) {
    || o.TransportFailed? || o.ReadFailed? || (o.StreamFailed? && !o.committed)
    || (o.Answered? && 200 <= o.status < 300 && !o.valid)
    || (o.Answered? && !(200 <= o.status < 300) && !KeyFault(o) &&
        (o.saysUnsupported || o.status in {404, 408, 425} || o.status >= 500))
  }

  /** The client went away before it was sent anything. */
  predicate Cancelled(o: Outcome) {
    o.TransportCancelled? || o.ReadCancelled? || (o.StreamCancelled? && !o.committed)
  }

  /** The client already holds some of the output. */
  predicate Streaming(o: Outcome) {
    o.StreamDone? || ((o.StreamCancelled? || o.StreamFailed?) && o.committed)
  }

  /** The upstream's refusal of the request itself, which no other site would take back. */
  predicate Refusal(o: Outcome) {
    o.Answered? && !(200 <= o.status < 300) && !KeyFault(o) && !SiteFault(o)
  }

  /** What the loop must do. */
  function Calls(o: Outcome): Flow {
    if KeyFault(o) then NextKey
    else if SiteFault(o) then NextSite
    else if Cancelled(o) then GiveUp
    else if Refusal(o) then Stop(Finish(false, false, NO_TOKENS, o.status), false)
    else Stop(Finish(Good(o) || o.StreamDone?, true, o.usage, o.status), Streaming(o))
  }

  /** What it must report of the site: a success, a failure, or nothing. */
  function Reports(o: Outcome): Option<bool> {
    if Good(o) || o.StreamDone? then Some(true)
    else if SiteFault(o) || o.StreamFailed? then Some(false)
    else None
  }

  /** The five cases exclude one another and leave nothing out, and the loop decides as they demand. */
  lemma OutcomesDecide(o: Outcome)
    ensures FlowOf(o) == Calls(o) && EventOf(o) == Reports(o)
    ensures KeyFault(o) ==> !SiteFault(o) && !Good(o)
    ensures Refusal(o) ==> o.status < 200 || 300 <= o.status < 500
  {
  }

  /** The attempt comes before key `credential` of `site` in the configured order. */
  predicate Below(a: Attempt, site: nat, credential: nat) {
    a.site < site || (a.site == site && a.credential < credential)
  }

  /** What is true of a single attempt of a trace. */
  ghost predicate AttemptOk(r: Run, t: Trace, k: nat)
    requires k < |t.attempts|
  {
    var a := t.attempts[k];
    && a.index == k
    && a.site < |r.sites| && a.credential < r.sites[a.site]
    && !r.expired(a.site, a.credential)
    && a.outcome == r.outcome(a.site, a.credential)
    && a.site in t.permits
    && (a.credential > 0 ==>
      k > 0 && t.attempts[k - 1].site == a.site && t.attempts[k - 1].credential == a.credential - 1
      && Calls(t.attempts[k - 1].outcome) == NextKey)
  }

  ghost predicate PermitOk(r: Run, site: nat) {
    site < |r.sites| && r.sites[site] > 0 && r.permit(site) == Granted
  }

  /** A site was entered, or there was no reason to. */
  predicate Covered(r: Run, permits: seq<nat>, site: nat)
    requires site < |r.sites|
  {
    site in permits || r.sites[site] == 0 || r.permit(site) == Denied
  }

  ghost predicate Ordered(r: Run, t: Trace) {
    && (forall k :: 0 <= k < |t.attempts| ==> AttemptOk(r, t, k))
    && (forall k, l :: 0 <= k < l < |t.attempts| ==>
         Below(t.attempts[k], t.attempts[l].site, t.attempts[l].credential))
    && (forall k :: 0 <= k < |t.permits| ==> PermitOk(r, t.permits[k]))
    && (forall k, l :: 0 <= k < l < |t.permits| ==> t.permits[k] < t.permits[l])
    && (forall k :: 0 <= k < |t.events| ==> t.events[k].site in t.permits)
    && (forall k, l :: 0 <= k < l < |t.events| ==> t.events[k].site < t.events[l].site)
  }

  /** Everything recorded so far lies before the given position, and the loop went on after all of it. */
  ghost predicate Before(t: Trace, site: nat, credential: nat) {
    && (forall k :: 0 <= k < |t.attempts| ==>
         && Below(t.attempts[k], site, credential)
         && (Calls(t.attempts[k].outcome) == NextKey || Calls(t.attempts[k].outcome) == NextSite))
    && (forall k :: 0 <= k < |t.events| ==> t.events[k].site < site && !t.events[k].success)
  }

  /** How a finished trace relates to the flow that ended it. */
  ghost predicate Ended(r: Run, t: Trace, flow: Flow) {
    && Ordered(r, t)
    && |t.permits| <= Budget(r)
    && (forall k :: 0 <= k < |t.attempts| - 1 ==>
         Calls(t.attempts[k].outcome) == NextKey || Calls(t.attempts[k].outcome) == NextSite)
    && (flow.Stop? ==> t.attempts != [] && Calls(t.attempts[|t.attempts| - 1].outcome) == flow)
    && (forall k :: 0 <= k < |t.events| && t.events[k].success ==>
         k == |t.events| - 1 && flow.Stop? && flow.finish.success
         && t.attempts != [] && t.events[k].site == t.attempts[|t.attempts| - 1].site)
  }

  /** The state of the key loop: the last permit is this site's, and its keys so far asked for the next key. */
  ghost predicate InSite(r: Run, t: Trace, site: nat, credential: nat) {
    && site < |r.sites| && credential <= r.sites[site]
    && Ordered(r, t) && Before(t, site, credential)
    && t.permits != [] && t.permits[|t.permits| - 1] == site
    && (credential > 0 ==> AskedForNext(t, site, credential - 1))
  }

  predicate AskedForNext(t: Trace, site: nat, credential: nat) {
    && t.attempts != []
    && var last := t.attempts[|t.attempts| - 1];
    && last.site == site && last.credential == credential && Calls(last.outcome) == NextKey
  }

  lemma RecordOrdered(r: Run, t: Trace, site: nat, credential: nat)
    requires InSite(r, t, site, credential) && credential < r.sites[site] && !r.expired(site, credential)
    ensures Ordered(r, Record(t, site, credential, r.outcome(site, credential)))
  {
    var t' := Record(t, site, credential, r.outcome(site, credential));
    var n := |t.attempts|;
    assert t'.attempts[n] == Attempt(site, credential, n, r.outcome(site, credential));
    assert t'.permits == t.permits && site in t.permits;
    forall k | 0 <= k <= n ensures AttemptOk(r, t', k) {
      if k < n {
        assert AttemptOk(r, t, k);
        assert t'.attempts[k] == t.attempts[k];
        if k > 0 { assert t'.attempts[k - 1] == t.attempts[k - 1]; }
      }
    }
  }

  lemma RecordAdvances(r: Run, t: Trace, site: nat, credential: nat)
    requires InSite(r, t, site, credential) && credential < r.sites[site] && !r.expired(site, credential)
    requires Calls(r.outcome(site, credential)) == NextKey
    ensures InSite(r, Record(t, site, credential, r.outcome(site, credential)), site, credential + 1)
  {
    OutcomesDecide(r.outcome(site, credential));
    RecordOrdered(r, t, site, credential);
  }

  lemma RecordLeaves(r: Run, t: Trace, site: nat, credential: nat)
    requires InSite(r, t, site, credential) && credential < r.sites[site] && !r.expired(site, credential)
    requires Calls(r.outcome(site, credential)) == NextSite
    ensures Before(Record(t, site, credential, r.outcome(site, credential)), site + 1, 0)
  {
    OutcomesDecide(r.outcome(site, credential));
  }

  lemma RecordEnds(r: Run, t: Trace, site: nat, credential: nat)
    requires InSite(r, t, site, credential) && credential < r.sites[site] && !r.expired(site, credential)
    requires |t.permits| <= Budget(r)
    requires Calls(r.outcome(site, credential)).Stop? || Calls(r.outcome(site, credential)) == GiveUp
    ensures Ended(r, Record(t, site, credential, r.outcome(site, credential)), Calls(r.outcome(site, credential)))
  {
    RecordOrdered(r, t, site, credential);
    OutcomesDecide(r.outcome(site, credential));
  }

  lemma KeysDone(r: Run, t: Trace, site: nat, failures: nat)
    requires site < |r.sites| && InSite(r, t, site, r.sites[site])
    ensures var (t', flow) := TryKeys(r, site, r.sites[site], failures, t);
      Ordered(r, t') && Before(t', site + 1, 0)
  {
    var (t', flow) := TryKeys(r, site, r.sites[site], failures, t);
    assert t'.attempts == t.attempts && t'.permits == t.permits;
    assert t.permits[|t.permits| - 1] == site;
    forall k | 0 <= k < |t'.attempts| ensures AttemptOk(r, t', k) { assert AttemptOk(r, t, k); }
  }

  lemma Ending(r: Run, t: Trace, site: nat, credential: nat)
    requires InSite(r, t, site, credential) && credential < r.sites[site] && !r.expired(site, credential)
    requires |t.permits| <= Budget(r) && Calls(r.outcome(site, credential)) != NextKey
    ensures var o := r.outcome(site, credential);
      var t' := Record(t, site, credential, o);
      && t'.permits == t.permits
      && (Calls(o) == NextSite ==> Ordered(r, t') && Before(t', site + 1, 0))
      && (Calls(o) != NextSite ==> Ended(r, t', Calls(o)))
  {
    RecordOrdered(r, t, site, credential);
    if Calls(r.outcome(site, credential)) == NextSite {
      RecordLeaves(r, t, site, credential);
    } else {
      RecordEnds(r, t, site, credential);
    }
  }

  lemma KeysOrdered(r: Run, site: nat, credential: nat, failures: nat, t: Trace)
    requires InSite(r, t, site, credential)
    requires |t.permits| <= Budget(r)
    ensures var (t', flow) := TryKeys(r, site, credential, failures, t);
      && t'.permits == t.permits
      && (flow == NextSite ==> Ordered(r, t') && Before(t', site + 1, 0))
      && (flow != NextSite ==> Ended(r, t', flow))
      && flow != NextKey
    decreases r.sites[site] - credential
  {
    if credential == r.sites[site] {
      KeysDone(r, t, site, failures);
    } else if !r.expired(site, credential) {
      var o := r.outcome(site, credential);
      OutcomesDecide(o);
      RecordOrdered(r, t, site, credential);
      if Calls(o) == NextKey {
        RecordAdvances(r, t, site, credential);
        var t' := Record(t, site, credential, o);
        KeysOrdered(r, site, credential + 1, if o.BuildFailed? then failures + 1 else failures, t');
      } else {
        Ending(r, t, site, credential);
      }
    }
  }

  lemma SitesOrdered(r: Run, site: nat, used: nat, t: Trace)
    requires site <= |r.sites| && Ordered(r, t) && Before(t, site, 0)
    requires |t.permits| == used <= Budget(r)
    requires forall k :: 0 <= k < |t.permits| ==> t.permits[k] < site
    ensures var (t', flow) := TrySites(r, site, used, t);
      Ended(r, t', flow) && (flow.Stop? || flow == GiveUp)
    decreases |r.sites| - site
  {
    if site == |r.sites| || used >= Budget(r) {
    } else if r.sites[site] == 0 || r.permit(site) == Denied {
      Later(t, site);
      SitesOrdered(r, site + 1, used, t);
    } else if r.permit(site) == Granted {
      var entered := t.(permits := t.permits + [site]);
      EnterSite(r, site, t);
      KeysOrdered(r, site, 0, 0, entered);
      var (t', flow) := TryKeys(r, site, 0, 0, entered);
      if flow == NextSite {
        SitesOrdered(r, site + 1, used + 1, t');
      }
    } else {
      RefusedOrdered(r, t);
    }
  }

  lemma RefusedOrdered(r: Run, t: Trace)
    requires Ordered(r, t)
    ensures Ordered(r, t.(lastStatus := 500))
  {
    var t' := t.(lastStatus := 500);
    forall k | 0 <= k < |t'.attempts| ensures AttemptOk(r, t', k) { assert AttemptOk(r, t, k); }
  }

  lemma Later(t: Trace, site: nat)
    requires Before(t, site, 0)
    ensures Before(t, site + 1, 0)
  {
  }

  lemma EnterSite(r: Run, site: nat, t: Trace)
    requires site < |r.sites| && r.sites[site] > 0 && r.permit(site) == Granted
    requires Ordered(r, t) && Before(t, site, 0)
    requires forall k :: 0 <= k < |t.permits| ==> t.permits[k] < site
    ensures InSite(r, t.(permits := t.permits + [site]), site, 0)
  {
    var t' := t.(permits := t.permits + [site]);
    forall k | 0 <= k < |t'.attempts| ensures AttemptOk(r, t', k) {
      assert AttemptOk(r, t, k);
    }
  }

  // ----- no site is skipped

  ghost predicate CoveredTo(r: Run, permits: seq<nat>, n: nat) {
    n <= |r.sites| && forall s :: 0 <= s < n ==> Covered(r, permits, s)
  }

  /** The health state of the next site in turn could not be stored, with budget left for it. */
  ghost predicate Unstored(r: Run, t: Trace) {
    |t.permits| < Budget(r) &&
    exists s :: 0 <= s < |r.sites| && r.sites[s] > 0 && r.permit(s) == PermitError && CoveredTo(r, t.permits, s)
  }

  /** The key is the next in turn at the site: nothing was tried there yet, or its predecessor failed locally. */
  predicate Reached(t: Trace, site: nat, credential: nat) {
    if credential == 0 then t.attempts == [] || t.attempts[|t.attempts| - 1].site < site
    else AskedForNext(t, site, credential - 1)
  }

  /** The deadline had passed when the next key of the last entered site came up. */
  ghost predicate Expired(r: Run, t: Trace) {
    && t.permits != []
    && var s := t.permits[|t.permits| - 1];
    && s < |r.sites|
    && exists c :: 0 <= c < r.sites[s] && Reached(t, s, c) && r.expired(s, c)
  }

  /** The run was cut short: the deadline passed, the client went away, or the health state could not be stored. */
  ghost predicate Interrupted(r: Run, t: Trace) {
    || Unstored(r, t)
    || Expired(r, t)
    || (t.attempts != [] && Cancelled(t.attempts[|t.attempts| - 1].outcome))
  }

  lemma KeysInterrupted(r: Run, site: nat, credential: nat, failures: nat, t: Trace)
    requires site < |r.sites| && credential <= r.sites[site]
    requires t.permits != [] && t.permits[|t.permits| - 1] == site && Reached(t, site, credential)
    ensures var (t', flow) := TryKeys(r, site, credential, failures, t);
      t'.permits == t.permits && Reached(t', site + 1, 0) && (flow == GiveUp ==> Interrupted(r, t'))
    decreases r.sites[site] - credential
  {
    if credential < r.sites[site] && !r.expired(site, credential) {
      var o := r.outcome(site, credential);
      OutcomesDecide(o);
      var t' := Record(t, site, credential, o);
      assert t'.permits == t.permits && t'.attempts[|t'.attempts| - 1].outcome == o;
      if Calls(o) == NextKey {
        KeysInterrupted(r, site, credential + 1, if o.BuildFailed? then failures + 1 else failures, t');
      }
    }
  }

  lemma EnteredCovered(r: Run, permits: seq<nat>, site: nat)
    requires site < |r.sites| && CoveredTo(r, permits, site)
    ensures CoveredTo(r, permits + [site], site + 1)
  {
    forall s | 0 <= s < site + 1 ensures Covered(r, permits + [site], s) {
      if s < site { assert Covered(r, permits, s); }
    }
  }

  lemma SitesCovered(r: Run, site: nat, used: nat, t: Trace)
    requires CoveredTo(r, t.permits, site) && Reached(t, site, 0)
    requires forall k :: 0 <= k < |t.permits| ==> t.permits[k] < site
    requires |t.permits| == used <= Budget(r)
    ensures var (t', flow) := TrySites(r, site, used, t);
      && (forall k :: 0 <= k < |t'.permits| ==> CoveredTo(r, t'.permits, t'.permits[k]))
      && (flow == GiveUp ==> |t'.permits| == Budget(r) || CoveredTo(r, t'.permits, |r.sites|) || Interrupted(r, t'))
    decreases |r.sites| - site
  {
    if site < |r.sites| && used < Budget(r) {
      if r.sites[site] == 0 || r.permit(site) == Denied {
        SitesCovered(r, site + 1, used, t);
      } else if r.permit(site) == Granted {
        var entered := t.(permits := t.permits + [site]);
        assert entered.permits[used] == site;
        KeysInterrupted(r, site, 0, 0, entered);
        var (t', flow) := TryKeys(r, site, 0, 0, entered);
        EnteredCovered(r, t.permits, site);
        forall k | 0 <= k < |t'.permits| ensures CoveredTo(r, t'.permits, t'.permits[k]) {
          assert t'.permits[k] <= site;
        }
        if flow == NextSite {
          SitesCovered(r, site + 1, used + 1, t');
        }
      }
    }
  }

  // ----- which attempt follows which

  /** After a key's own fault the site's next key is tried, if it has one; after any other attempt that does not end the
      request, and after the last key, a later site with its first key. */
  predicate Follows(r: Run, a: Attempt, b: Attempt) {
    if KeysLeft(r, a) then b.site == a.site && b.credential == a.credential + 1
    else (KeyFault(a.outcome) || SiteFault(a.outcome)) && b.site > a.site && b.credential == 0
  }

  predicate KeysLeft(r: Run, a: Attempt) {
    KeyFault(a.outcome) && a.site < |r.sites| && a.credential + 1 < r.sites[a.site]
  }

  predicate InTurn(r: Run, t: Trace) {
    forall k :: 0 < k < |t.attempts| ==> Follows(r, t.attempts[k - 1], t.attempts[k])
  }

  /** The key may be tried next: the attempt before it asks for it, or for a later site. */
  predicate Due(r: Run, t: Trace, site: nat, credential: nat) {
    t.attempts != [] ==>
      var a := t.attempts[|t.attempts| - 1];
      if credential > 0 then KeyFault(a.outcome) && a.site == site && a.credential + 1 == credential
      else a.site < site && (KeyFault(a.outcome) || SiteFault(a.outcome)) && !KeysLeft(r, a)
  }

  /** An entered site has an attempt, unless the deadline had passed by then. */
  ghost predicate Used(r: Run, t: Trace, site: nat) {
    (exists k :: 0 <= k < |t.attempts| && t.attempts[k].site == site) || r.expired(site, 0)
  }

  lemma RecordInTurn(r: Run, t: Trace, site: nat, credential: nat, o: Outcome)
    requires InTurn(r, t) && Due(r, t, site, credential) && (credential > 0 ==> t.attempts != [])
    requires site < |r.sites| && credential < r.sites[site]
    ensures var t' := Record(t, site, credential, o);
      && t'.permits == t.permits && t.attempts <= t'.attempts && t'.attempts != []
      && InTurn(r, t') && Used(r, t', site)
      && (FlowOf(o) == NextKey ==>
           if credential + 1 < r.sites[site] then Due(r, t', site, credential + 1) else Due(r, t', site + 1, 0))
      && (FlowOf(o) == NextSite ==> Due(r, t', site + 1, 0))
  {
    OutcomesDecide(o);
    var t', n := Record(t, site, credential, o), |t.attempts|;
    assert t'.attempts == t.attempts + [Attempt(site, credential, n, o)];
    assert t'.attempts[n].site == site;
  }

  lemma KeysInTurn(r: Run, site: nat, credential: nat, failures: nat, t: Trace)
    requires site < |r.sites| && credential <= r.sites[site] && InTurn(r, t)
    requires if credential < r.sites[site] then Due(r, t, site, credential) else Due(r, t, site + 1, 0)
    requires credential > 0 ==> t.attempts != [] && Used(r, t, site)
    requires r.sites[site] > 0
    ensures var (t', flow) := TryKeys(r, site, credential, failures, t);
      && t'.permits == t.permits && t.attempts <= t'.attempts
      && InTurn(r, t') && Used(r, t', site) && (flow == NextSite ==> Due(r, t', site + 1, 0))
    decreases r.sites[site] - credential
  {
    if credential < r.sites[site] && !r.expired(site, credential) {
      var o := r.outcome(site, credential);
      RecordInTurn(r, t, site, credential, o);
      if FlowOf(o) == NextKey {
        KeysInTurn(r, site, credential + 1, if o.BuildFailed? then failures + 1 else failures,
                   Record(t, site, credential, o));
      }
    }
  }

  lemma SitesInTurn(r: Run, site: nat, used: nat, t: Trace)
    requires site <= |r.sites| && InTurn(r, t) && Due(r, t, site, 0)
    requires forall k :: 0 <= k < |t.permits| ==> Used(r, t, t.permits[k])
    ensures var t' := TrySites(r, site, used, t).0;
      InTurn(r, t') && forall k :: 0 <= k < |t'.permits| ==> Used(r, t', t'.permits[k])
    decreases |r.sites| - site
  {
    if site < |r.sites| && used < Budget(r) {
      if r.sites[site] == 0 || r.permit(site) == Denied {
        SitesInTurn(r, site + 1, used, t);
      } else if r.permit(site) == Granted {
        var entered := t.(permits := t.permits + [site]);
        KeysInTurn(r, site, 0, 0, entered);
        var (t', flow) := TryKeys(r, site, 0, 0, entered);
        forall k | 0 <= k < |t'.permits| ensures Used(r, t', t'.permits[k]) {
          if k < |t.permits| { UsedStill(r, t, t', t.permits[k]); }
        }
        if flow == NextSite { SitesInTurn(r, site + 1, used + 1, t'); }
      } else {
        forall k | 0 <= k < |t.permits| ensures Used(r, t.(lastStatus := 500), t.permits[k]) {
          UsedStill(r, t, t.(lastStatus := 500), t.permits[k]);
        }
      }
    }
  }

  lemma UsedStill(r: Run, t: Trace, t': Trace, site: nat)
    requires Used(r, t, site) && t.attempts <= t'.attempts
    ensures Used(r, t', site)
  {
    if k :| 0 <= k < |t.attempts| && t.attempts[k].site == site { assert t'.attempts[k].site == site; }
  }

  // ----- the theorems

  /** Strict-order failover, for every run: attempts are numbered from zero in strictly increasing order of site and
      key; at most the budget of sites is entered, each with keys and a granted permit; a key after the first is
      tried only right after its predecessor failed locally; nothing follows an attempt that ends the request; and
      each site gets at most one health event, a success only as the very last one. */
  lemma StrictOrder(r: Run)
    ensures var (t, flow) := Serve(r);
      Ended(r, t, flow) && (flow.Stop? || flow == GiveUp)
  {
    SitesOrdered(r, 0, 0, START);
  }

  /** No site is skipped: before any entered site, every other one was entered too, has no key, or was denied; and
      the request gives up only with its budget spent, no site left, or an interruption. */
  lemma NoSiteSkipped(r: Run)
    ensures var (t, flow) := Serve(r);
      && (forall k :: 0 <= k < |t.permits| ==> CoveredTo(r, t.permits, t.permits[k]))
      && (flow == GiveUp ==>
           || |t.permits| == (if r.maxAttempts > 0 then r.maxAttempts else 3)
           || CoveredTo(r, t.permits, |r.sites|) || Interrupted(r, t))
  {
    StrictOrder(r);
    SitesCovered(r, 0, 0, START);
    if |Serve(r).0.permits| == |r.sites| { AllEntered(r, Serve(r).0.permits); }
  }

  /** As many distinct sites as there are: all of them. */
  lemma {:induction false} AllEntered(r: Run, permits: seq<nat>)
    requires |permits| == |r.sites| && forall k :: 0 <= k < |permits| ==> permits[k] < |r.sites|
    requires forall k, l :: 0 <= k < l < |permits| ==> permits[k] < permits[l]
    ensures CoveredTo(r, permits, |r.sites|)
  {
    forall s: nat | s < |r.sites| ensures permits[s] == s {
      AtLeast(permits, s);
      AtMost(permits, s, |r.sites|);
    }
    forall s | 0 <= s < |r.sites| ensures Covered(r, permits, s) { assert permits[s] in permits; }
  }

  lemma {:induction false} AtLeast(s: seq<nat>, i: nat)
    requires i < |s| && forall k, l :: 0 <= k < l < |s| ==> s[k] < s[l]
    ensures s[i] >= i
  {
    if i > 0 { AtLeast(s, i - 1); }
  }

  lemma {:induction false} AtMost(s: seq<nat>, i: nat, n: nat)
    requires i < |s| == n && forall k :: 0 <= k < |s| ==> s[k] < n
    requires forall k, l :: 0 <= k < l < |s| ==> s[k] < s[l]
    ensures s[i] <= i
    decreases n - i
  {
    if i + 1 < n { AtMost(s, i + 1, n); }
  }

  /** Which attempt follows which, by outcome alone: another key of the same site after the key's own fault, another
      site after the site's, and nothing after any other outcome; every entered site is really tried. */
  lemma AnswersDecideNext(r: Run)
    ensures var t := Serve(r).0;
      InTurn(r, t) && forall k :: 0 <= k < |t.permits| ==> Used(r, t, t.permits[k])
  {
    SitesInTurn(r, 0, 0, START);
  }

  /** How a request ends, by its last outcome alone. It stops exactly on output or on a refusal, under that attempt's
      own status; output is charged with exactly the usage of that attempt, a refusal is not charged. */
  lemma AnswersDecideEnd(r: Run, settled: bool)
    ensures var (t, flow) := Serve(r);
      && (flow.Stop? <==> t.attempts != [] && (Good(Last(t)) || Streaming(Last(t)) || Refusal(Last(t))))
      && (flow.Stop? ==>
           var o, f := Last(t), flow.finish;
           && f.httpStatus == o.status
           && f.tokens == (if Refusal(o) then NO_TOKENS else o.usage)
           && (f.charge <==> !Refusal(o)) && (f.success <==> Good(o) || o.StreamDone?)
           && ResponseOf(t, flow, settled) ==
                if Streaming(o) then Streamed else if settled then UpstreamAnswer(o.status) else GatewayError(500))
      && (!flow.Stop? ==> !FinishOf(t, flow).charge && !FinishOf(t, flow).success)
  {
    StrictOrder(r);
    SitesGiveUp(r, 0, 0, START);
    var t := Serve(r).0;
    if t.attempts != [] { OutcomesDecide(Last(t)); }
  }

  /** The last attempt left its output with the client, or was a valid answer. */
  predicate Delivered(t: Trace) {
    t.attempts != [] && (Good(Last(t)) || Streaming(Last(t)))
  }

  function Last(t: Trace): Outcome
    requires t.attempts != []
  {
    t.attempts[|t.attempts| - 1].outcome
  }

  /** A request is charged exactly when it succeeded or committed stream output, and an upstream success body is
      written only after its settlement committed. */
  lemma ChargedIffDelivered(r: Run, settled: bool)
    ensures var (t, flow) := Serve(r);
      && (FinishOf(t, flow).charge <==> Delivered(t))
      && (FinishOf(t, flow).success ==> FinishOf(t, flow).charge)
      && (ResponseOf(t, flow, settled).UpstreamAnswer? ==> settled)
      && (ResponseOf(t, flow, settled).Streamed? ==> Delivered(t) && FinishOf(t, flow).charge)
      && (!settled && !ResponseOf(t, flow, settled).Streamed? ==> ResponseOf(t, flow, settled) == GatewayError(500))
  {
    StrictOrder(r);
    GivingUp(r);
  }

  /** When the loop gives up, its last attempt delivered nothing. */
  lemma GivingUp(r: Run)
    ensures var (t, flow) := Serve(r);
      flow == GiveUp ==> !Delivered(t)
  {
    StrictOrder(r);
    SitesGiveUp(r, 0, 0, START);
  }

  /** The last attempt delivered something, or was a refusal. */
  predicate Stopped(t: Trace) {
    Delivered(t) || (t.attempts != [] && Refusal(Last(t)))
  }

  lemma SitesGiveUp(r: Run, site: nat, used: nat, t: Trace)
    requires site <= |r.sites| && !Stopped(t)
    ensures var (t', flow) := TrySites(r, site, used, t);
      flow == GiveUp ==> !Stopped(t')
    decreases |r.sites| - site
  {
    if site < |r.sites| && used < Budget(r) {
      if r.sites[site] == 0 || r.permit(site) == Denied {
        SitesGiveUp(r, site + 1, used, t);
      } else if r.permit(site) == Granted {
        var entered := t.(permits := t.permits + [site]);
        KeysGiveUp(r, site, 0, 0, entered);
        var (t', flow) := TryKeys(r, site, 0, 0, entered);
        if flow == NextSite {
          SitesGiveUp(r, site + 1, used + 1, t');
        }
      }
    }
  }

  lemma KeysGiveUp(r: Run, site: nat, credential: nat, failures: nat, t: Trace)
    requires site < |r.sites| && credential <= r.sites[site] && !Stopped(t)
    ensures var (t', flow) := TryKeys(r, site, credential, failures, t);
      !flow.Stop? ==> !Stopped(t')
    decreases r.sites[site] - credential
  {
    if credential < r.sites[site] && !r.expired(site, credential) {
      var o := r.outcome(site, credential);
      OutcomesDecide(o);
      var t' := Record(t, site, credential, o);
      assert t'.attempts[|t'.attempts| - 1].outcome == o;
      if Calls(o) == NextKey {
        KeysGiveUp(r, site, credential + 1, if o.BuildFailed? then failures + 1 else failures, t');
      }
    }
  }

  // ----- health events

  /** No key of the site could even build a request. */
  ghost predicate AllBuildsFail(r: Run, site: nat)
    requires site < |r.sites|
  {
    r.sites[site] > 0 && forall c :: 0 <= c < r.sites[site] ==> !r.expired(site, c) && r.outcome(site, c).BuildFailed?
  }

  /** An event comes from an attempt that blames or clears its site, or from a site whose keys all failed to build. */
  ghost predicate Explained(r: Run, t: Trace, e: SiteEvent) {
    || (exists k :: 0 <= k < |t.attempts| && t.attempts[k].site == e.site
          && Reports(t.attempts[k].outcome) == Some(e.success))
    || (!e.success && e.site < |r.sites| && AllBuildsFail(r, e.site))
  }

  /** Every event is explained and nothing that should be an event is missing; `pending` is the site being tried. */
  ghost predicate EventsOk(r: Run, t: Trace, pending: Option<nat>) {
    && (forall e :: e in t.events ==> Explained(r, t, e))
    && (forall k :: 0 <= k < |t.attempts| && Reports(t.attempts[k].outcome).Some? ==>
         SiteEvent(t.attempts[k].site, Reports(t.attempts[k].outcome).value) in t.events)
    && (forall s :: s in t.permits && s < |r.sites| && AllBuildsFail(r, s) && pending != Some(s) ==>
         SiteEvent(s, false) in t.events)
  }

  lemma RecordEvents(r: Run, t: Trace, site: nat, credential: nat, o: Outcome)
    requires EventsOk(r, t, Some(site))
    ensures EventsOk(r, Record(t, site, credential, o), Some(site))
  {
    var t' := Record(t, site, credential, o);
    var n := |t.attempts|;
    OutcomesDecide(o);
    assert t'.attempts[n] == Attempt(site, credential, n, o);
    forall e | e in t'.events ensures Explained(r, t', e) {
      if e in t.events {
        assert Explained(r, t, e);
        if exists k :: 0 <= k < n && t.attempts[k].site == e.site && Reports(t.attempts[k].outcome) == Some(e.success) {
          var k :| 0 <= k < n && t.attempts[k].site == e.site && Reports(t.attempts[k].outcome) == Some(e.success);
          assert t'.attempts[k] == t.attempts[k];
        }
      }
    }
  }

  lemma KeysEvents(r: Run, site: nat, credential: nat, failures: nat, t: Trace)
    requires site < |r.sites| && credential <= r.sites[site] && r.sites[site] > 0
    requires EventsOk(r, t, Some(site)) && failures <= credential
    requires failures == credential <==>
      forall c :: 0 <= c < credential ==> !r.expired(site, c) && r.outcome(site, c).BuildFailed?
    ensures var (t', flow) := TryKeys(r, site, credential, failures, t);
      EventsOk(r, t', None)
    decreases r.sites[site] - credential
  {
    if credential == r.sites[site] {
      var t' := TryKeys(r, site, credential, failures, t).0;
      forall e | e in t'.events ensures Explained(r, t', e) {
        if e in t.events { assert Explained(r, t, e); }
      }
    } else if !r.expired(site, credential) {
      var o := r.outcome(site, credential);
      OutcomesDecide(o);
      RecordEvents(r, t, site, credential, o);
      if Calls(o) == NextKey {
        KeysEvents(r, site, credential + 1, if o.BuildFailed? then failures + 1 else failures,
                   Record(t, site, credential, o));
      }
    }
  }

  lemma SitesEvents(r: Run, site: nat, used: nat, t: Trace)
    requires site <= |r.sites| && EventsOk(r, t, None)
    ensures EventsOk(r, TrySites(r, site, used, t).0, None)
    decreases |r.sites| - site
  {
    if site < |r.sites| && used < Budget(r) {
      if r.sites[site] == 0 || r.permit(site) == Denied {
        SitesEvents(r, site + 1, used, t);
      } else if r.permit(site) == Granted {
        var entered := t.(permits := t.permits + [site]);
        assert forall e :: Explained(r, t, e) ==> Explained(r, entered, e);
        KeysEvents(r, site, 0, 0, entered);
        var (t', flow) := TryKeys(r, site, 0, 0, entered);
        if flow == NextSite {
          SitesEvents(r, site + 1, used + 1, t');
        }
      } else {
        var t' := t.(lastStatus := 500);
        assert forall e :: Explained(r, t, e) ==> Explained(r, t', e);
      }
    }
  }

  /** The health events of a request are exactly those its attempts call for: each attempt that clears or blames its
      site has its event, so has each entered site none of whose keys could build a request, and there is no other. */
  lemma HealthEventsMatch(r: Run)
    ensures EventsOk(r, Serve(r).0, None)
  {
    SitesEvents(r, 0, 0, START);
  }

  // ----- the answer when nothing succeeded

  /** The status the client is owed by the attempts: that of the last one that was not the client's own cancellation. */
  function StatusOwed(attempts: seq<Attempt>): int {
    if attempts == [] then 503
    else match attempts[|attempts| - 1].outcome
      case BuildFailed => 502
      case TransportFailed => 504
      case StreamFailed(_, _, _) => 502
      case ReadFailed => 502
      case Answered(status, _, _, valid, _, _) => if 200 <= status < 300 && !valid then 502 else status
      case _ => StatusOwed(attempts[..|attempts| - 1])
  }

  /** Whether that status comes with the upstream's own body: that of a complete and non-empty answer. */
  predicate BodyOwed(attempts: seq<Attempt>) {
    attempts != [] &&
    match attempts[|attempts| - 1].outcome
    case BuildFailed => false
    case TransportFailed => false
    case StreamFailed(_, _, _) => false
    case ReadFailed => false
    case Answered(status, _, _, valid, empty, _) => !(200 <= status < 300 && !valid) && !empty
    case _ => BodyOwed(attempts[..|attempts| - 1])
  }

  /** The remembered status is the one owed; a delivered stream or answer is not remembered but sent. */
  ghost predicate StatusOk(t: Trace) {
    t.lastStatus == StatusOwed(t.attempts) && t.lastBody == BodyOwed(t.attempts)
  }

  lemma RecordStatus(t: Trace, site: nat, credential: nat, o: Outcome)
    requires StatusOk(t) && !Calls(o).Stop?
    ensures StatusOk(Record(t, site, credential, o))
  {
    var t' := Record(t, site, credential, o);
    assert t'.attempts[..|t'.attempts| - 1] == t.attempts;
    if o.Answered? { AnswerRemembered(t, o); }
  }

  lemma AnswerRemembered(t: Trace, o: Outcome)
    requires o.Answered? && !Good(o)
    ensures var t' := Remember(t, o);
      && t'.lastStatus == (if 200 <= o.status < 300 then 502 else o.status)
      && t'.lastBody == (!(200 <= o.status < 300) && !o.empty)
  {
  }

  lemma KeysStatus(r: Run, site: nat, credential: nat, failures: nat, t: Trace)
    requires site < |r.sites| && credential <= r.sites[site] && StatusOk(t)
    ensures var (t', flow) := TryKeys(r, site, credential, failures, t);
      t'.permits == t.permits && (!flow.Stop? ==> StatusOk(t'))
    decreases r.sites[site] - credential
  {
    if credential < r.sites[site] && !r.expired(site, credential) {
      var o := r.outcome(site, credential);
      OutcomesDecide(o);
      if !Calls(o).Stop? {
        RecordStatus(t, site, credential, o);
        if Calls(o) == NextKey {
          KeysStatus(r, site, credential + 1, if o.BuildFailed? then failures + 1 else failures,
                     Record(t, site, credential, o));
        }
      }
    }
  }

  /** Between two sites: the last attempt was at the last site entered, and asks for a later one. */
  predicate Clear(r: Run, t: Trace, site: nat) {
    && Due(r, t, site, 0)
    && (t.permits != [] ==>
         t.attempts != [] && t.attempts[|t.attempts| - 1].site == t.permits[|t.permits| - 1])
  }

  /** The deadline had passed, or the client went away. */
  ghost predicate CutShort(r: Run, t: Trace) {
    Expired(r, t) || (t.attempts != [] && Cancelled(Last(t)))
  }

  lemma ClearIsNotCut(r: Run, t: Trace, site: nat)
    requires Clear(r, t, site) && forall k :: 0 <= k < |t.permits| ==> t.permits[k] < |r.sites|
    ensures !CutShort(r, t)
  {
    if t.permits != [] {
      var s, a := t.permits[|t.permits| - 1], t.attempts[|t.attempts| - 1];
      forall c | 0 <= c < r.sites[s] ensures !Reached(t, s, c) {
        assert !KeysLeft(r, a) && a.site == s;
      }
    }
  }

  lemma KeysClear(r: Run, site: nat, credential: nat, failures: nat, t: Trace)
    requires site < |r.sites| && credential <= r.sites[site] && r.sites[site] > 0
    requires t.permits != [] && t.permits[|t.permits| - 1] == site
    requires if credential < r.sites[site] then Due(r, t, site, credential) else Due(r, t, site + 1, 0)
    requires credential > 0 ==> t.attempts != [] && t.attempts[|t.attempts| - 1].site == site
    ensures var (t', flow) := TryKeys(r, site, credential, failures, t);
      flow == NextSite ==> Clear(r, t', site + 1)
    decreases r.sites[site] - credential
  {
    if credential < r.sites[site] && !r.expired(site, credential) {
      var o := r.outcome(site, credential);
      var t' := Record(t, site, credential, o);
      OutcomesDecide(o);
      assert t'.attempts == t.attempts + [Attempt(site, credential, |t.attempts|, o)] && t'.permits == t.permits;
      if Calls(o) == NextKey {
        KeysClear(r, site, credential + 1, if o.BuildFailed? then failures + 1 else failures, t');
      }
    }
  }

  /** How a run that gives up got there: at a site whose health state could not be stored, or with the owed status, cut
      short or with nothing left to try. */
  ghost predicate GaveUp(r: Run, t: Trace) {
    && t.lastBody == BodyOwed(t.attempts)
    && if Unstored(r, t) && !CutShort(r, t) then t.lastStatus == 500 else t.lastStatus == StatusOwed(t.attempts)
  }

  lemma NothingLeft(r: Run, t: Trace)
    requires StatusOk(t) && (|t.permits| == Budget(r) || CoveredTo(r, t.permits, |r.sites|) || CutShort(r, t))
    requires forall k :: 0 <= k < |t.permits| ==> PermitOk(r, t.permits[k])
    ensures GaveUp(r, t)
  {
    if CoveredTo(r, t.permits, |r.sites|) {
      forall s | 0 <= s < |r.sites| && r.sites[s] > 0 ensures r.permit(s) != PermitError {
        assert Covered(r, t.permits, s);
      }
    }
  }

  lemma KeysCut(r: Run, site: nat, credential: nat, failures: nat, t: Trace)
    requires site < |r.sites| && credential <= r.sites[site]
    requires t.permits != [] && t.permits[|t.permits| - 1] == site && Reached(t, site, credential)
    ensures var (t', flow) := TryKeys(r, site, credential, failures, t);
      t'.permits == t.permits && (flow == GiveUp ==> CutShort(r, t'))
    decreases r.sites[site] - credential
  {
    if credential < r.sites[site] && !r.expired(site, credential) {
      var o := r.outcome(site, credential);
      OutcomesDecide(o);
      var t' := Record(t, site, credential, o);
      assert t'.permits == t.permits && Last(t') == o;
      if Calls(o) == NextKey {
        KeysCut(r, site, credential + 1, if o.BuildFailed? then failures + 1 else failures, t');
      }
    }
  }

  lemma SitesStatus(r: Run, site: nat, used: nat, t: Trace)
    requires CoveredTo(r, t.permits, site) && |t.permits| == used <= Budget(r) && StatusOk(t)
    requires Clear(r, t, site) && forall k :: 0 <= k < |t.permits| ==> PermitOk(r, t.permits[k])
    ensures var (t', flow) := TrySites(r, site, used, t);
      flow == GiveUp ==> GaveUp(r, t')
    decreases |r.sites| - site
  {
    if site == |r.sites| || used >= Budget(r) {
      NothingLeft(r, t);
    } else if r.sites[site] == 0 || r.permit(site) == Denied {
      SitesStatus(r, site + 1, used, t);
    } else if r.permit(site) == Granted {
      SiteStatus(r, site, used, t);
      var (t', flow) := TryKeys(r, site, 0, 0, t.(permits := t.permits + [site]));
      if flow == NextSite { SitesStatus(r, site + 1, used + 1, t'); }
    } else {
      UnstoredHere(r, site, t);
    }
  }

  /** A site that was entered: given up there, or left for the next. */
  lemma SiteStatus(r: Run, site: nat, used: nat, t: Trace)
    requires site < |r.sites| && used < Budget(r) && r.sites[site] > 0 && r.permit(site) == Granted
    requires CoveredTo(r, t.permits, site) && |t.permits| == used && StatusOk(t)
    requires Clear(r, t, site) && forall k :: 0 <= k < |t.permits| ==> PermitOk(r, t.permits[k])
    ensures var (t', flow) := TryKeys(r, site, 0, 0, t.(permits := t.permits + [site]));
      && (flow == GiveUp ==> GaveUp(r, t'))
      && (flow == NextSite ==>
           && t'.permits == t.permits + [site] && StatusOk(t') && Clear(r, t', site + 1)
           && CoveredTo(r, t'.permits, site + 1)
           && forall k :: 0 <= k < |t'.permits| ==> PermitOk(r, t'.permits[k]))
  {
    var entered := t.(permits := t.permits + [site]);
    EnteredCovered(r, t.permits, site);
    KeysStatus(r, site, 0, 0, entered);
    KeysClear(r, site, 0, 0, entered);
    KeysCut(r, site, 0, 0, entered);
    var (t', flow) := TryKeys(r, site, 0, 0, entered);
    if flow == GiveUp { NothingLeft(r, t'); }
  }

  lemma UnstoredHere(r: Run, site: nat, t: Trace)
    requires site < |r.sites| && r.sites[site] > 0 && r.permit(site) == PermitError
    requires CoveredTo(r, t.permits, site) && |t.permits| < Budget(r) && StatusOk(t)
    requires Clear(r, t, site) && forall k :: 0 <= k < |t.permits| ==> PermitOk(r, t.permits[k])
    ensures GaveUp(r, t.(lastStatus := 500))
  {
    var t' := t.(lastStatus := 500);
    assert Clear(r, t', site);
    ClearIsNotCut(r, t', site);
  }

  /** A request that gives up answers with the status of its last attempt (502 and 504 for faults of the gateway's own
      making, 503 when nothing was attempted), except with 500 exactly when it stopped at a site whose health state
      could not be stored. */
  lemma GivesUpWithLastStatus(r: Run, settled: bool)
    ensures var (t, flow) := Serve(r);
      flow == GiveUp ==>
        && GaveUp(r, t)
        && ResponseOf(t, flow, settled) ==
             (if !settled then GatewayError(500)
              else if BodyOwed(t.attempts) then LastBody(t.lastStatus) else GatewayError(t.lastStatus))
        && FinishOf(t, flow).httpStatus == t.lastStatus
  {
    SitesStatus(r, 0, 0, START);
  }
}
