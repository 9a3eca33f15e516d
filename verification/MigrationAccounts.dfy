/**
How the migration plans and deposits the accounts of one group of legacy upstreams. JSON canonicalisation is an
uninterpreted idempotent partial function; credentials stay encrypted and are only compared.
*/
module MigrationAccounts {
  import opened Wrappers

  // ----- the normal forms of stored strings

  predicate IsSpace(c: char) {
    || c == ' ' || '\t' <= c <= '\r' || c == '\U{0085}' || c == '\U{00A0}' || c == '\U{1680}'
    || '\U{2000}' <= c <= '\U{200A}' || c == '\U{2028}' || c == '\U{2029}' || c == '\U{202F}'
    || c == '\U{205F}' || c == '\U{3000}'
  }

  function TrimStart(s: string): (r: string)
    ensures |r| <= |s| && r == s[|s| - |r|..]
    ensures r == [] || !IsSpace(r[0])
    ensures s == [] || !IsSpace(s[0]) ==> r == s
  {
    if s != [] && IsSpace(s[0]) then TrimStart(s[1..]) else s
  }

  function TrimEnd(s: string): (r: string)
    ensures r <= s
    ensures r == [] || !IsSpace(r[|r| - 1])
    ensures s == [] || !IsSpace(s[|s| - 1]) ==> r == s
  {
    if s != [] && IsSpace(s[|s| - 1]) then TrimEnd(s[..|s| - 1]) else s
  }

  function TrimSpace(s: string): string { TrimEnd(TrimStart(s)) }

  function TrimSlashes(s: string): (r: string)
    ensures r <= s
    ensures r == [] || r[|r| - 1] != '/'
    ensures s == [] || s[|s| - 1] != '/' ==> r == s
  {
    if s != [] && s[|s| - 1] == '/' then TrimSlashes(s[..|s| - 1]) else s
  }

  /** The stored form of an API origin: trimmed of white space, then of trailing slashes. */
  function Origin(s: string): string { TrimSlashes(TrimSpace(s)) }

  function LowerChar(c: char): char {
    if 'A' <= c <= 'Z' then c + ('a' - 'A') else c
  }

  function Lower(s: string): (r: string)
    ensures |r| == |s| && forall i :: 0 <= i < |s| ==> r[i] == LowerChar(s[i])
  {
    seq(|s|, i requires 0 <= i < |s| => LowerChar(s[i]))
  }

  /** The same letter in two cases, or the same character. */
  predicate SameLetter(c: char, d: char) {
    c == d || ('a' <= c <= 'z' && d as int + 32 == c as int) || ('a' <= d <= 'z' && c as int + 32 == d as int)
  }

  /** Lower case tells two strings apart exactly when they differ in more than the case of letters. */
  lemma LowerFolds(s: string, t: string)
    ensures Lower(s) == Lower(t) <==> |s| == |t| && forall i :: 0 <= i < |s| ==> SameLetter(s[i], t[i])
  {
    if |s| == |t| {
      forall i | 0 <= i < |s| ensures Lower(s)[i] == Lower(t)[i] <==> SameLetter(s[i], t[i]) {}
    }
  }

  /** The stored form of an adapter name. */
  function Adapter(s: string): string { Lower(TrimSpace(s)) }

  /** No white space at either end. */
  predicate Bare(s: string) { s == [] || (!IsSpace(s[0]) && !IsSpace(s[|s| - 1])) }

  lemma Trimmed(s: string)
    ensures Bare(TrimSpace(s))
    ensures Bare(s) ==> TrimSpace(s) == s
    ensures (s == [] || !IsSpace(s[0])) && TrimSpace(s) == s ==> Bare(s)
  {
    var t := TrimSpace(s);
    if t != [] { assert t[0] == TrimStart(s)[0]; }
  }

  lemma LowerKeepsSpace(c: char)
    ensures IsSpace(LowerChar(c)) == IsSpace(c) && LowerChar(LowerChar(c)) == LowerChar(c)
  {
  }

  lemma LowerIsStable(t: string)
    requires Bare(t)
    ensures Bare(Lower(t)) && Lower(Lower(t)) == Lower(t)
  {
    var u := Lower(t);
    forall i | 0 <= i < |t| ensures Lower(u)[i] == u[i] && IsSpace(u[i]) == IsSpace(t[i]) {
      LowerKeepsSpace(t[i]);
    }
  }

  /** The adapter's normal form is stable. */
  lemma AdapterIsStable(s: string)
    ensures Adapter(Adapter(s)) == Adapter(s)
  {
    Trimmed(s);
    LowerIsStable(TrimSpace(s));
    Trimmed(Adapter(s));
  }

  /** Taking the stored form of an origin once more changes it exactly when white space stands before the trailing
      slashes that the first pass removed. */
  lemma StableIff(s: string)
    ensures Origin(Origin(s)) == Origin(s) <==> Origin(s) == [] || !IsSpace(Origin(s)[|Origin(s)| - 1])
  {
    var z := Origin(s);
    Trimmed(s);
    if z != [] {
      assert z[0] == TrimSpace(s)[0];
      Trimmed(z);
      if IsSpace(z[|z| - 1]) {
        assert |TrimSpace(z)| <= |z| && TrimSpace(z) != z;
        assert |Origin(z)| <= |TrimSpace(z)| < |z|;
      }
    }
  }

  lemma SlashTrimmed(t: string)
    requires t != [] && t[|t| - 1] != '/'
    ensures TrimSlashes(t + "/") == t
  {
    assert (t + "/")[..|t|] == t;
  }

  /** White space before the slashes: each pass strips one slash and uncovers the next space. */
  lemma OnePass(t: string)
    requires t != [] && !IsSpace(t[0]) && t[|t| - 1] != '/'
    ensures Origin(t + "/") == t
  {
    var s := t + "/";
    assert s[0] == t[0] && s[|s| - 1] == '/';
    Trimmed(s);
    SlashTrimmed(t);
  }

  /** Origins whose stored form keeps changing: configured as `https://h/a / / /` the origin is checked as
      `https://h/a / / `, stored as `https://h/a / `, migrated to `https://h/a ` and compared as `https://h/a`. */
  lemma UnstableOrigin(h: string)
    requires h != [] && Bare(h) && h[|h| - 1] != '/'
    ensures Origin(h + " / / /") == h + " / / "
    ensures Origin(h + " / / ") == h + " / "
    ensures Origin(h + " / ") == h + " "
    ensures Origin(h + " ") == h
  {
    ThreeSlashes(h, h + " /");
    TwoSlashes(h, h + " /");
    SpacedSlashes(h);
    SpaceTrimmed(h);
  }

  lemma ThreeSlashes(h: string, t: string)
    requires h != [] && !IsSpace(h[0]) && t == h + " /"
    ensures Origin(h + " / / /") == h + " / / "
  {
    assert h + " / / /" == t + " / /" && h + " / / " == t + " / ";
    SpacedSlashes(t);
  }

  lemma TwoSlashes(h: string, t: string)
    requires h != [] && !IsSpace(h[0]) && t == h + " /"
    ensures Origin(h + " / / ") == h + " / "
  {
    assert h + " / / " == t + " / " && h + " / " == t + " ";
    SpacedSlashes(t);
  }

  /** One pass takes off a slash, with any space after it, and leaves the space before it. */
  lemma SpacedSlashes(t: string)
    requires t != [] && !IsSpace(t[0])
    ensures Origin(t + " / /") == t + " / " && Origin(t + " / ") == t + " "
  {
    assert t + " / /" == (t + " / ") + "/" && t + " / " == (t + " /") + " " && t + " /" == (t + " ") + "/";
    OnePass(t + " / ");
    OnePass(t + " ");
    TrailingSpace(t + " /");
  }

  lemma TrailingSpace(t: string)
    requires t != [] && Bare(t)
    ensures Origin(t + " ") == Origin(t)
  {
    var s := t + " ";
    assert s[0] == t[0] && s[|s| - 1] == ' ' && s[..|t|] == t;
    assert TrimStart(s) == s && TrimEnd(t) == t && TrimStart(t) == t;
  }

  lemma SpaceTrimmed(h: string)
    requires h != [] && Bare(h) && h[|h| - 1] != '/'
    ensures Origin(h + " ") == h
  {
    var t := h + " ";
    assert t[0] == h[0] && t[|t| - 1] == ' ';
    assert TrimStart(t) == t;
    assert t[..|t| - 1] == h;
    assert TrimEnd(h) == h;
  }

  // ----- account configurations

  /** The normal forms under which configurations are stored and compared; a JSON text that does not parse has none. */
  datatype Forms = Forms(adapter: string -> string, origin: string -> string, json: string -> Option<string>)

  ghost predicate Idempotent(forms: Forms) {
    && (forall x, y :: forms.json(x) == Some(y) ==> forms.json(y) == Some(y))
    && (forall x, y :: forms.adapter(x) == y ==> forms.adapter(y) == y)
  }

  predicate Stable(forms: Forms, origin: string) { forms.origin(forms.origin(origin)) == forms.origin(origin) }

  /** The forms the migration uses. */
  function TheForms(json: string -> Option<string>): Forms { Forms(Adapter, Origin, json) }

  lemma TheFormsAre(json: string -> Option<string>)
    requires forall x, y :: json(x) == Some(y) ==> json(y) == Some(y)
    ensures Idempotent(TheForms(json))
    ensures forall s :: Stable(TheForms(json), s) <==> Origin(s) == [] || !IsSpace(Origin(s)[|Origin(s)| - 1])
  {
    forall x, y | Adapter(x) == y ensures Adapter(y) == y { AdapterIsStable(x); }
    forall s ensures Stable(TheForms(json), s) <==> Origin(s) == [] || !IsSpace(Origin(s)[|Origin(s)| - 1]) {
      StableIff(s);
    }
  }

  datatype Config = Config(adapter: string, origin: string, auth: seq<byte>, enabled: bool, capabilities: string)

  /** `Broken` is capabilities JSON that does not parse. */
  datatype Comparison = Same | Differs | Broken

  function Compare(forms: Forms, a: Config, b: Config): Comparison {
    if forms.adapter(a.adapter) != forms.adapter(b.adapter) then Differs
    else if forms.origin(a.origin) != forms.origin(b.origin) then Differs
    else if a.auth != b.auth then Differs
    else if a.enabled != b.enabled then Differs
    else if forms.json(a.capabilities).None? || forms.json(b.capabilities).None? then Broken
    else if forms.json(a.capabilities) != forms.json(b.capabilities) then Differs
    else Same
  }

  function StoredConfig(forms: Forms, c: Config): Config
    requires forms.json(c.capabilities).Some?
  {
    Config(forms.adapter(c.adapter), forms.origin(c.origin), c.auth, c.enabled, forms.json(c.capabilities).value)
  }

  lemma CompareOrigins(forms: Forms, a: Config, b: Config)
    requires forms.adapter(a.adapter) == forms.adapter(b.adapter) && a.auth == b.auth && a.enabled == b.enabled
    requires forms.json(a.capabilities).Some? && forms.json(a.capabilities) == forms.json(b.capabilities)
    ensures Compare(forms, a, b) == if forms.origin(a.origin) == forms.origin(b.origin) then Same else Differs
  {
  }

  /** A stored configuration is recognised as its original exactly when the origin's stored form is stable. */
  lemma StoredIsRecognised(forms: Forms, c: Config)
    requires Idempotent(forms) && forms.json(c.capabilities).Some?
    ensures Compare(forms, c, StoredConfig(forms, c)) == (if Stable(forms, c.origin) then Same else Differs)
  {
    assert forms.adapter(forms.adapter(c.adapter)) == forms.adapter(c.adapter);
    assert forms.json(forms.json(c.capabilities).value) == forms.json(c.capabilities);
    CompareOrigins(forms, c, StoredConfig(forms, c));
  }

  // ----- snapshots and usage

  datatype Snap = Snap(capturedAt: int, json: string)

  datatype Usage = Usage(externalId: string, model: string, amount: string, measure: string, raw: string,
                         occurredAt: Option<int>, syncedAt: int)

  datatype UsageRow = UsageRow(key: string, usage: Usage)

  /** A usage record as stored: the empty string is NULL. */
  datatype StoredUsage = StoredUsage(externalId: Option<string>, model: Option<string>, amount: Option<string>,
                                     measure: Option<string>, raw: string, occurredAt: Option<int>, syncedAt: int)

  function Nullable(s: string): Option<string> { if s == "" then None else Some(s) }

  function Text(s: Option<string>): string { if s.None? then "" else s.value }

  function Store(u: Usage): StoredUsage {
    StoredUsage(Nullable(u.externalId), Nullable(u.model), Nullable(u.amount), Nullable(u.measure),
                u.raw, u.occurredAt, u.syncedAt)
  }

  /** Reading a record back canonicalises its JSON. */
  function Load(forms: Forms, s: StoredUsage): Option<Usage> {
    match forms.json(s.raw)
    case None => None
    case Some(raw) =>
      Some(Usage(Text(s.externalId), Text(s.model), Text(s.amount), Text(s.measure), raw, s.occurredAt, s.syncedAt))
  }

  lemma LoadStored(forms: Forms, u: Usage)
    requires forms.json(u.raw) == Some(u.raw)
    ensures Load(forms, Store(u)) == Some(u)
  {
  }

  /** The distinct snapshots with canonical JSON, in order of first appearance; None for JSON that does not parse. */
  function DistinctSnaps(forms: Forms, items: seq<Snap>): Option<seq<Snap>> {
    if items == [] then Some([])
    else
      var last := items[|items| - 1];
      match DistinctSnaps(forms, items[..|items| - 1])
      case None => None
      case Some(r) =>
        match forms.json(last.json)
        case None => None
        case Some(json) => Some(if Snap(last.capturedAt, json) in r then r else r + [Snap(last.capturedAt, json)])
  }

  /** The usage by dedupe key; None for JSON that does not parse or two different records under one key. */
  function DistinctUsage(forms: Forms, items: seq<UsageRow>): Option<map<string, Usage>> {
    if items == [] then Some(map[])
    else
      var last := items[|items| - 1];
      match DistinctUsage(forms, items[..|items| - 1])
      case None => None
      case Some(m) =>
        match forms.json(last.usage.raw)
        case None => None
        case Some(raw) =>
          var u := last.usage.(raw := raw);
          if last.key !in m then Some(m[last.key := u])
          else if m[last.key] == u then Some(m) else None
  }

  method CollectSnapshots(forms: Forms, items: seq<Snap>) returns (found: Option<seq<Snap>>)
    ensures found == DistinctSnaps(forms, items)
  {
    var keys: set<Snap> := {};
    var out: seq<Snap> := [];
    for i := 0 to |items|
      invariant DistinctSnaps(forms, items[..i]) == Some(out)
      invariant forall s :: s in keys <==> s in out
    {
      assert items[..i + 1][..i] == items[..i];
      var json := forms.json(items[i].json);
      if json.None? {
        BrokenSnaps(forms, items, i + 1);
        return None;
      }
      var key := Snap(items[i].capturedAt, json.value);
      if key in keys {
        continue;
      }
      keys := keys + {key};
      out := out + [key];
    }
    assert items[..|items|] == items;
    return Some(out);
  }

  lemma {:induction false} BrokenSnaps(forms: Forms, items: seq<Snap>, n: nat)
    requires n <= |items| && DistinctSnaps(forms, items[..n]).None?
    ensures DistinctSnaps(forms, items).None?
    decreases |items|
  {
    if n == |items| {
      assert items[..n] == items;
    } else {
      assert items[..|items| - 1][..n] == items[..n];
      BrokenSnaps(forms, items[..|items| - 1], n);
    }
  }

  method CollectUsage(forms: Forms, items: seq<UsageRow>) returns (found: Option<map<string, Usage>>)
    ensures found == DistinctUsage(forms, items)
  {
    var byKey: map<string, Usage> := map[];
    for i := 0 to |items|
      invariant DistinctUsage(forms, items[..i]) == Some(byKey)
    {
      assert items[..i + 1][..i] == items[..i];
      var raw := forms.json(items[i].usage.raw);
      if raw.None? {
        BrokenUsage(forms, items, i + 1);
        return None;
      }
      var item := items[i].usage.(raw := raw.value);
      if items[i].key in byKey {
        if byKey[items[i].key] != item {
          BrokenUsage(forms, items, i + 1);
          return None;
        }
        continue;
      }
      byKey := byKey[items[i].key := item];
    }
    assert items[..|items|] == items;
    return Some(byKey);
  }

  lemma {:induction false} BrokenUsage(forms: Forms, items: seq<UsageRow>, n: nat)
    requires n <= |items| && DistinctUsage(forms, items[..n]).None?
    ensures DistinctUsage(forms, items).None?
    decreases |items|
  {
    if n == |items| {
      assert items[..n] == items;
    } else {
      assert items[..|items| - 1][..n] == items[..n];
      BrokenUsage(forms, items[..|items| - 1], n);
    }
  }

  // ----- planning one group

  datatype Account = Account(id: int, updatedAt: int, config: Config, snapshots: seq<Snap>, usage: seq<UsageRow>)

  datatype SiteAccount = SiteAccount(config: Config, snapshots: seq<Snap>, usage: map<string, StoredUsage>)

  /** `Failed` aborts the whole plan; a conflict blocks the migration. */
  datatype UnitPlan = Failed | Conflict | Unit(create: bool, config: Config, snapshots: seq<Snap>,
      usage: map<string, Usage>)

  /** `a` stands before `b` in the group: more recently updated, then the larger id. */
  predicate Newer(a: Account, b: Account) {
    a.updatedAt > b.updatedAt || (a.updatedAt == b.updatedAt && a.id >= b.id)
  }

  predicate Descending(s: seq<Account>) {
    forall i, j :: 0 <= i < j < |s| ==> Newer(s[i], s[j])
  }

  function Insert(a: Account, sorted: seq<Account>): (r: seq<Account>)
    ensures |r| == |sorted| + 1
  {
    if sorted == [] then [a]
    else if Newer(a, sorted[0]) then [a] + sorted
    else [sorted[0]] + Insert(a, sorted[1..])
  }

  /** The accounts of a group with the representative first. */
  function NewestFirst(accounts: seq<Account>): (r: seq<Account>)
    ensures |r| == |accounts|
  {
    if accounts == [] then []
    else Insert(accounts[|accounts| - 1], NewestFirst(accounts[..|accounts| - 1]))
  }

  lemma {:induction false} InsertSorts(a: Account, sorted: seq<Account>)
    requires Descending(sorted)
    ensures Descending(Insert(a, sorted)) && multiset(Insert(a, sorted)) == multiset(sorted) + multiset{a}
    ensures forall x :: x in Insert(a, sorted) ==> x == a || x in sorted
  {
    if sorted == [] {
    } else if Newer(a, sorted[0]) {
      assert forall x :: x in sorted ==> Newer(a, x);
    } else {
      InsertSorts(a, sorted[1..]);
      assert sorted == [sorted[0]] + sorted[1..];
      assert forall x :: x in Insert(a, sorted[1..]) ==> Newer(sorted[0], x);
    }
  }

  /** The representative is the group's most recently updated account: the list is sorted, and a rearrangement. */
  lemma {:induction false} NewestFirstSorts(accounts: seq<Account>)
    ensures Descending(NewestFirst(accounts)) && multiset(NewestFirst(accounts)) == multiset(accounts)
  {
    if accounts != [] {
      var n := |accounts| - 1;
      NewestFirstSorts(accounts[..n]);
      InsertSorts(accounts[n], NewestFirst(accounts[..n]));
      assert accounts == accounts[..n] + [accounts[n]];
    }
  }

  function CompareOthers(forms: Forms, c: Config, others: seq<Account>): Comparison {
    if others == [] then Same
    else
      var first := Compare(forms, c, others[0].config);
      if first != Same then first else CompareOthers(forms, c, others[1..])
  }

  function AllSnaps(accounts: seq<Account>): seq<Snap> {
    if accounts == [] then [] else accounts[0].snapshots + AllSnaps(accounts[1..])
  }

  function AllUsage(accounts: seq<Account>): seq<UsageRow> {
    if accounts == [] then [] else accounts[0].usage + AllUsage(accounts[1..])
  }

  /** Every stored JSON value of the account parses. */
  predicate Clean(forms: Forms, acc: SiteAccount) {
    && (forall s :: s in acc.snapshots ==> forms.json(s.json).Some?)
    && (forall k :: k in acc.usage ==> Load(forms, acc.usage[k]).Some?)
  }

  predicate Holds(forms: Forms, acc: SiteAccount, s: Snap) {
    exists i :: 0 <= i < |acc.snapshots| &&
      acc.snapshots[i].capturedAt == s.capturedAt && forms.json(acc.snapshots[i].json) == Some(s.json)
  }

  function MissingSnaps(forms: Forms, acc: SiteAccount, snaps: seq<Snap>): seq<Snap> {
    if snaps == [] then []
    else
      var rest := MissingSnaps(forms, acc, snaps[..|snaps| - 1]);
      var last := snaps[|snaps| - 1];
      if Holds(forms, acc, last) then rest else rest + [last]
  }

  function MissingUsage(acc: SiteAccount, usage: map<string, Usage>): map<string, Usage> {
    map k | k in usage && k !in acc.usage :: usage[k]
  }

  predicate UsageAgrees(forms: Forms, acc: SiteAccount, usage: map<string, Usage>) {
    forall k :: k in usage && k in acc.usage ==> Load(forms, acc.usage[k]) == Some(usage[k])
  }

  /** The checks on configurations: among the group's accounts, and against the account its site already has. A
      `Broken` comparison is an error; everything else that is not `Same` is a conflict. */
  function Vet(forms: Forms, accounts: seq<Account>, existing: Option<SiteAccount>): Comparison
    requires accounts != []
  {
    var rep := accounts[0].config;
    if forms.json(rep.capabilities).None? then Differs
    else
      var others := CompareOthers(forms, rep, accounts[1..]);
      if others != Same then others
      else if rep.auth == [] then Differs
      else if existing.None? then Same
      else Compare(forms, rep, existing.value.config)
  }

  /** The rows a vetted group still has to create. */
  function Gather(forms: Forms, accounts: seq<Account>, existing: Option<SiteAccount>): UnitPlan
    requires accounts != [] && forms.json(accounts[0].config.capabilities).Some?
  {
    var snaps, usage := DistinctSnaps(forms, AllSnaps(accounts)), DistinctUsage(forms, AllUsage(accounts));
    if snaps.None? || usage.None? then Conflict
    else if existing.None? then Unit(true, StoredConfig(forms, accounts[0].config), snaps.value, usage.value)
    else
      var acc := existing.value;
      if !Clean(forms, acc) then Failed
      else if !UsageAgrees(forms, acc, usage.value) then Conflict
      else
        Unit(false, acc.config, MissingSnaps(forms, acc, snaps.value),
             MissingUsage(acc, usage.value))
  }

  /** What one group still has to create, given the account its mapped site already has, if any. */
  function PlanUnit(forms: Forms, accounts: seq<Account>, existing: Option<SiteAccount>): UnitPlan
    requires accounts != []
  {
    match Vet(forms, accounts, existing)
    case Broken => Failed
    case Differs => Conflict
    case Same => Gather(forms, accounts, existing)
  }

  // ----- depositing one group

  function StoreAll(usage: map<string, Usage>): map<string, StoredUsage> {
    map k | k in usage :: Store(usage[k])
  }

  /** The account after the unit's rows are inserted; None when a constraint of the tables refuses one of them. */
  function Deposit(existing: Option<SiteAccount>, u: UnitPlan): Option<SiteAccount>
    requires u.Unit?
  {
    if u.create then
      if existing.Some? || u.config.adapter == "" || u.config.origin == "" || u.config.auth == [] then None
      else Some(SiteAccount(u.config, u.snapshots, StoreAll(u.usage)))
    else if existing.None? || (exists k :: k in u.usage && k in existing.value.usage) then None
    else
      Some(existing.value.(snapshots := existing.value.snapshots + u.snapshots,
                           usage := existing.value.usage + StoreAll(u.usage)))
  }

  /** Nothing of `before` is lost or changed. */
  ghost predicate Grew(before: SiteAccount, after: SiteAccount) {
    && after.config == before.config
    && before.snapshots <= after.snapshots
    && (forall k :: k in before.usage ==> k in after.usage && after.usage[k] == before.usage[k])
  }

  /** The account holds every snapshot and usage record of the group. */
  ghost predicate Covers(forms: Forms, acc: SiteAccount, accounts: seq<Account>) {
    && Clean(forms, acc)
    && (DistinctSnaps(forms, AllSnaps(accounts)).Some? ==>
         forall s :: s in DistinctSnaps(forms, AllSnaps(accounts)).value ==> Holds(forms, acc, s))
    && (DistinctUsage(forms, AllUsage(accounts)).Some? ==>
         var usage := DistinctUsage(forms, AllUsage(accounts)).value;
         forall k :: k in usage ==> k in acc.usage && Load(forms, acc.usage[k]) == Some(usage[k]))
  }

  lemma {:induction false} CanonicalSnaps(forms: Forms, items: seq<Snap>)
    requires Idempotent(forms)
    ensures DistinctSnaps(forms, items).Some? ==>
      forall s :: s in DistinctSnaps(forms, items).value ==> forms.json(s.json) == Some(s.json)
  {
    if items != [] { CanonicalSnaps(forms, items[..|items| - 1]); }
  }

  lemma {:induction false} CanonicalUsage(forms: Forms, items: seq<UsageRow>)
    requires Idempotent(forms)
    ensures DistinctUsage(forms, items).Some? ==> Canonical(forms, DistinctUsage(forms, items).value)
  {
    if items != [] && DistinctUsage(forms, items).Some? {
      var last := items[|items| - 1];
      CanonicalUsage(forms, items[..|items| - 1]);
      var m, raw := DistinctUsage(forms, items[..|items| - 1]).value, forms.json(last.usage.raw).value;
      assert forms.json(raw) == Some(raw);
      assert Canonical(forms, m[last.key := last.usage.(raw := raw)]);
    }
  }

  predicate Canonical(forms: Forms, m: map<string, Usage>) {
    forall k :: k in m ==> forms.json(m[k].raw) == Some(m[k].raw)
  }

  lemma {:induction false} MissingAre(forms: Forms, acc: SiteAccount, snaps: seq<Snap>)
    ensures forall s :: s in MissingSnaps(forms, acc, snaps) <==> s in snaps && !Holds(forms, acc, s)
    ensures (forall s :: s in snaps ==> Holds(forms, acc, s)) ==> MissingSnaps(forms, acc, snaps) == []
  {
    if snaps != [] {
      MissingAre(forms, acc, snaps[..|snaps| - 1]);
      assert snaps == snaps[..|snaps| - 1] + [snaps[|snaps| - 1]];
    }
  }

  /** Depositing a planned unit on an account that has only grown since it was planned covers the group. */
  lemma DepositCovers(forms: Forms, accounts: seq<Account>, planned: Option<SiteAccount>, now: Option<SiteAccount>)
    requires Idempotent(forms) && accounts != [] && PlanUnit(forms, accounts, planned).Unit?
    requires planned.Some? ==> now.Some? && Grew(planned.value, now.value) && Clean(forms, now.value)
    requires Deposit(now, PlanUnit(forms, accounts, planned)).Some?
    ensures var acc := Deposit(now, PlanUnit(forms, accounts, planned)).value;
      && Covers(forms, acc, accounts)
      && (now.Some? ==> Grew(now.value, acc))
      && acc.config == (if planned.None? then StoredConfig(forms, accounts[0].config) else planned.value.config)
  {
    var u := PlanUnit(forms, accounts, planned);
    assert u == Gather(forms, accounts, planned);
    var acc := Deposit(now, u).value;
    var snaps, usage := DistinctSnaps(forms, AllSnaps(accounts)).value, DistinctUsage(forms, AllUsage(accounts)).value;
    CanonicalSnaps(forms, AllSnaps(accounts));
    CanonicalUsage(forms, AllUsage(accounts));
    DepositSnaps(forms, snaps, planned, now, acc);
    DepositUsage(forms, usage, planned, now, u, acc);
  }

  lemma DepositUsage(forms: Forms, usage: map<string, Usage>, planned: Option<SiteAccount>, now: Option<SiteAccount>,
                     u: UnitPlan, acc: SiteAccount)
    requires Canonical(forms, usage)
    requires u.Unit? && Deposit(now, u) == Some(acc) && u.create == planned.None?
    requires planned.None? ==> u.usage == usage
    requires planned.Some? ==> now.Some? && Grew(planned.value, now.value) && Clean(forms, now.value)
    requires planned.Some? ==> UsageAgrees(forms, planned.value, usage)
    requires planned.Some? ==> u.usage == MissingUsage(planned.value, usage)
    ensures forall k :: k in usage ==> k in acc.usage && Load(forms, acc.usage[k]) == Some(usage[k])
    ensures forall k :: k in acc.usage ==> Load(forms, acc.usage[k]).Some?
  {
    forall k | k in u.usage ensures k in acc.usage && Load(forms, acc.usage[k]) == Some(usage[k]) {
      LoadStored(forms, usage[k]);
    }
    forall k | k in acc.usage && k !in u.usage ensures Load(forms, acc.usage[k]).Some? {
      assert now.Some? && acc.usage[k] == now.value.usage[k];
    }
  }

  lemma DepositSnaps(forms: Forms, snaps: seq<Snap>, planned: Option<SiteAccount>, now: Option<SiteAccount>,
      acc: SiteAccount)
    requires forall s :: s in snaps ==> forms.json(s.json) == Some(s.json)
    requires planned.None? ==> acc.snapshots == snaps
    requires planned.Some? ==> now.Some? && Grew(planned.value, now.value) && Clean(forms, now.value)
    requires planned.Some? ==> acc.snapshots == now.value.snapshots + MissingSnaps(forms, planned.value, snaps)
    ensures forall s :: s in snaps ==> Holds(forms, acc, s)
    ensures forall s :: s in acc.snapshots ==> forms.json(s.json).Some?
  {
    if planned.Some? { MissingAre(forms, planned.value, snaps); }
    forall s | s in snaps ensures Holds(forms, acc, s) {
      if planned.Some? && Holds(forms, planned.value, s) {
        var kept := planned.value.snapshots;
        var i :| 0 <= i < |kept| && kept[i].capturedAt == s.capturedAt && forms.json(kept[i].json) == Some(s.json);
        assert acc.snapshots[i] == now.value.snapshots[i] == kept[i];
      } else {
        assert s in acc.snapshots;
        var i :| 0 <= i < |acc.snapshots| && acc.snapshots[i] == s;
      }
    }
  }

  lemma GrewCovers(forms: Forms, a: SiteAccount, b: SiteAccount, accounts: seq<Account>)
    requires Covers(forms, a, accounts) && Grew(a, b) && Clean(forms, b)
    ensures Covers(forms, b, accounts)
  {
    forall s | Holds(forms, a, s) ensures Holds(forms, b, s) {
      var i :| 0 <= i < |a.snapshots| && a.snapshots[i].capturedAt == s.capturedAt
               && forms.json(a.snapshots[i].json) == Some(s.json);
      assert b.snapshots[i] == a.snapshots[i];
    }
  }

  /** Planning a group again once its account covers it: nothing is left to create, unless the account is no longer
      recognised, which is a conflict. */
  lemma ReplanIsEmpty(forms: Forms, accounts: seq<Account>, planned: Option<SiteAccount>, acc: SiteAccount)
    requires accounts != [] && PlanUnit(forms, accounts, planned).Unit? && Covers(forms, acc, accounts)
    requires Compare(forms, accounts[0].config, acc.config) != Broken
    ensures PlanUnit(forms, accounts, Some(acc)) ==
      if Compare(forms, accounts[0].config, acc.config) == Same then Unit(false, acc.config, [], map[]) else Conflict
  {
    VetAgain(forms, accounts, planned, acc);
    GatherAgain(forms, accounts, planned, acc);
  }

  lemma VetAgain(forms: Forms, accounts: seq<Account>, planned: Option<SiteAccount>, acc: SiteAccount)
    requires accounts != [] && Vet(forms, accounts, planned) == Same
    ensures Vet(forms, accounts, Some(acc)) == Compare(forms, accounts[0].config, acc.config)
  {
  }

  lemma GatherAgain(forms: Forms, accounts: seq<Account>, planned: Option<SiteAccount>, acc: SiteAccount)
    requires accounts != [] && forms.json(accounts[0].config.capabilities).Some?
    requires Gather(forms, accounts, planned).Unit? && Covers(forms, acc, accounts)
    ensures Gather(forms, accounts, Some(acc)) == Unit(false, acc.config, [], map[])
  {
    var snaps, usage := DistinctSnaps(forms, AllSnaps(accounts)).value, DistinctUsage(forms, AllUsage(accounts)).value;
    MissingAre(forms, acc, snaps);
    assert MissingUsage(acc, usage) == map[];
  }
}
