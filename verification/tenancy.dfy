/**
 Companies and their branches, the plan and overrides held by each tree's root, and the
 soft deletion that takes a whole subtree out of service.
 */
module Tenancy {
  import opened Wrappers

  type CompanyId = nat

  datatype Tier = Starter | Pro | Enterprise

  datatype Module = Estimation | Compliance | Accounting | Integrations | ChildBranches

  datatype Standing = Trialing | Active | PastDue | Canceled

  /** `born` numbers the companies in the order they were created. */
  datatype Company = Company(parent: Option<CompanyId>, deleted: bool, born: nat)

  datatype Subscription = Subscription(tier: Tier, standing: Standing)

  type Companies = map<CompanyId, Company>

  datatype State = State(
    companies: Companies,
    births: nat,
    subscriptions: map<CompanyId, Subscription>,
    overrides: map<(CompanyId, Module), bool>)

  function Rank(t: Tier): nat {
    match t case Starter => 0 case Pro => 1 case Enterprise => 2
  }

  const MODULES: seq<Module> := [Estimation, Compliance, Accounting, Integrations, ChildBranches]

  function MinTier(m: Module): Tier {
    match m
    case Estimation => Pro
    case Compliance => Pro
    case Accounting => Enterprise
    case Integrations => Enterprise
    case ChildBranches => Enterprise
  }

  // ---------------------------------------------------------------- the forest

  /** Every parent exists and is older than its branches. */
  ghost predicate Forest(cs: Companies) {
    forall c :: c in cs && cs[c].parent.Some? ==>
      cs[c].parent.value in cs && cs[cs[c].parent.value].born < cs[c].born
  }

  /** The recursive query: the company and its ancestors, nearest first; none for an unknown id. */
  ghost function Ancestry(cs: Companies, c: CompanyId): seq<CompanyId>
    requires Forest(cs)
    decreases if c in cs then cs[c].born + 1 else 0
  {
    if c !in cs then []
    else if cs[c].parent.None? then [c]
    else [c] + Ancestry(cs, cs[c].parent.value)
  }

  /** `get_root_company_id`: the row of the ancestry without a parent. */
  ghost function RootOf(cs: Companies, c: CompanyId): CompanyId
    requires Forest(cs) && c in cs
    decreases cs[c].born
  {
    if cs[c].parent.None? then c else RootOf(cs, cs[c].parent.value)
  }

  /** `is_company_live`. */
  ghost predicate IsLive(cs: Companies, c: CompanyId)
    requires Forest(cs)
  {
    c in cs && forall a :: a in Ancestry(cs, c) ==> a in cs && !cs[a].deleted
  }

  /** Of the rows the query walks, all of them companies, `root` is the one without a parent. */
  ghost predicate OnlyRoot(cs: Companies, walked: seq<CompanyId>, root: CompanyId) {
    && root in walked && root in cs && cs[root].parent.None?
    && forall a :: a in walked ==> a in cs && (cs[a].parent.None? ==> a == root)
  }

  lemma {:induction false} RootIsTheOneWithoutParent(cs: Companies, c: CompanyId)
    requires Forest(cs) && c in cs
    ensures OnlyRoot(cs, Ancestry(cs, c), RootOf(cs, c))
    decreases cs[c].born
  {
    if cs[c].parent.Some? {
      RootIsTheOneWithoutParent(cs, cs[c].parent.value);
    }
  }

  ghost predicate ClosedUpwards(cs: Companies, some: set<CompanyId>) {
    forall c :: c in some && c in cs && cs[c].parent.Some? ==> cs[c].parent.value in some
  }

  /** The ancestry is the least set with the company that holds every member's parent. */
  lemma {:induction false} AncestryIsLeast(cs: Companies, c: CompanyId, some: set<CompanyId>)
    requires Forest(cs) && c in some && ClosedUpwards(cs, some)
    ensures forall a :: a in Ancestry(cs, c) ==> a in some
    decreases if c in cs then cs[c].born + 1 else 0
  {
    if c in cs && cs[c].parent.Some? {
      AncestryIsLeast(cs, cs[c].parent.value, some);
    }
  }

  lemma {:induction false} AncestryIsClosed(cs: Companies, c: CompanyId)
    requires Forest(cs)
    ensures ClosedUpwards(cs, set a | a in Ancestry(cs, c))
    decreases if c in cs then cs[c].born + 1 else 0
  {
    if c in cs && cs[c].parent.Some? {
      var p := cs[c].parent.value;
      AncestryIsClosed(cs, p);
      assert p in Ancestry(cs, p);
      forall x | x in Ancestry(cs, c) && x in cs && cs[x].parent.Some?
        ensures cs[x].parent.value in Ancestry(cs, c)
      {
        if x != c {
          assert x in set a | a in Ancestry(cs, p);
          assert cs[x].parent.value in set a | a in Ancestry(cs, p);
        }
      }
    }
  }

  // ---------------------------------------------------------------- what a tenant may use

  ghost function SubscriptionOf(s: State, c: CompanyId): Option<Subscription>
    requires Forest(s.companies) && c in s.companies
  {
    var root := RootOf(s.companies, c);
    if root in s.subscriptions then Some(s.subscriptions[root]) else None
  }

  predicate TierAllows(tier: Option<Tier>, m: Module) {
    tier.Some? ==> Rank(tier.value) >= Rank(MinTier(m))
  }

  ghost function TierOf(s: State, c: CompanyId): Option<Tier>
    requires Forest(s.companies) && c in s.companies
  {
    var sub := SubscriptionOf(s, c);
    if sub.Some? then Some(sub.value.tier) else None
  }

  /** The request gate, `_module_allowed`: the root's override, else its tier, else open. */
  ghost predicate ModuleAllowed(s: State, c: CompanyId, m: Module)
    requires Forest(s.companies) && c in s.companies
  {
    var root := RootOf(s.companies, c);
    if (root, m) in s.overrides then s.overrides[(root, m)] else TierAllows(TierOf(s, c), m)
  }

  /** `block_if_read_only` lets a write pass. */
  ghost predicate MayWrite(s: State, c: CompanyId)
    requires Forest(s.companies) && c in s.companies
  {
    var sub := SubscriptionOf(s, c);
    sub.Some? ==> sub.value.standing == Trialing || sub.value.standing == Active
  }

  /** One line of the console's list. */
  datatype Entitlement = Entitlement(mod: Module, byTier: bool, override: Option<bool>, effective: bool)

  function EntitlementOf(s: State, root: CompanyId, tier: Option<Tier>, m: Module): Entitlement {
    var override := if (root, m) in s.overrides then Some(s.overrides[(root, m)]) else None;
    Entitlement(m, TierAllows(tier, m), override, if override.Some? then override.value else TierAllows(tier, m))
  }

  /** `_entitlements`, the console's list for a root. */
  method Entitlements(s: State, root: CompanyId, tier: Option<Tier>) returns (list: seq<Entitlement>)
    ensures |list| == |MODULES|
    ensures forall i :: 0 <= i < |MODULES| ==> list[i] == EntitlementOf(s, root, tier, MODULES[i])
  {
    list := [];
    for i := 0 to |MODULES|
      invariant |list| == i
      invariant forall k :: 0 <= k < i ==> list[k] == EntitlementOf(s, root, tier, MODULES[k])
    {
      var m := MODULES[i];
      var byTier := match tier case Some(t) => Rank(t) >= Rank(MinTier(m)) case None => true;
      var override := if (root, m) in s.overrides then Some(s.overrides[(root, m)]) else None;
      list := list + [Entitlement(m, byTier, override, if override.Some? then override.value else byTier)];
    }
  }

  // ---------------------------------------------------------------- the requests

  datatype Request =
    | Register(id: CompanyId, tier: Tier, standing: Standing)   // the standing is Stripe's answer
    | CreateChild(parent: CompanyId, id: CompanyId)
    | Deactivate(id: CompanyId)
    | Restore(id: CompanyId)
    | SetTier(id: CompanyId, tier: Tier)
    | SetStanding(id: CompanyId, standing: Standing)
    | SetOverride(id: CompanyId, mod: Module, enabled: bool)
    | ClearOverride(id: CompanyId, mod: Module)

  /** Entitlement routes take a root, and refuse anything else. */
  predicate IsRoot(s: State, c: CompanyId) {
    c in s.companies && s.companies[c].parent.None?
  }

  ghost predicate Accepted(s: State, r: Request)
    requires Forest(s.companies)
  {
    match r
    case Register(id, _, _) => id !in s.companies
    case CreateChild(parent, id) =>
      && id !in s.companies && parent in s.companies
      && IsLive(s.companies, parent) && MayWrite(s, parent) && ModuleAllowed(s, parent, ChildBranches)
    case Deactivate(id) => id in s.companies && !s.companies[id].deleted
    case Restore(id) => id in s.companies && s.companies[id].deleted
    case SetTier(id, _) => IsRoot(s, id) && id in s.subscriptions
    case SetStanding(id, _) => IsRoot(s, id) && id in s.subscriptions
    case SetOverride(id, _, _) => IsRoot(s, id)
    case ClearOverride(id, m) => IsRoot(s, id) && (id, m) in s.overrides
  }

  function Flagged(s: State, id: CompanyId, deleted: bool): State
    requires id in s.companies
  {
    s.(companies := s.companies[id := s.companies[id].(deleted := deleted)])
  }

  ghost function Apply(s: State, r: Request): State
    requires Forest(s.companies) && Accepted(s, r)
  {
    match r
    case Register(id, tier, standing) =>
      s.(companies := s.companies[id := Company(None, false, s.births)], births := s.births + 1,
         subscriptions := s.subscriptions[id := Subscription(tier, standing)])
    case CreateChild(parent, id) =>
      s.(companies := s.companies[id := Company(Some(parent), false, s.births)], births := s.births + 1)
    case Deactivate(id) => Flagged(s, id, true)
    case Restore(id) => Flagged(s, id, false)
    case SetTier(id, tier) => s.(subscriptions := s.subscriptions[id := s.subscriptions[id].(tier := tier)])
    case SetStanding(id, standing) =>
      s.(subscriptions := s.subscriptions[id := s.subscriptions[id].(standing := standing)])
    case SetOverride(id, m, enabled) => s.(overrides := s.overrides[(id, m) := enabled])
    case ClearOverride(id, m) => s.(overrides := s.overrides - {(id, m)})
  }

  function Empty(): State {
    State(map[], 0, map[], map[])
  }

  ghost predicate Inv(s: State) {
    && Forest(s.companies)
    && (forall c :: c in s.companies ==> s.companies[c].born < s.births)
    && (forall c :: c in s.subscriptions <==> IsRoot(s, c))
    && (forall c, m :: (c, m) in s.overrides ==> IsRoot(s, c))
  }

  /** Nothing a company descends from is lost or re-parented; ages stay. */
  ghost predicate Extends(s: State, n: State) {
    forall c :: c in s.companies ==>
      c in n.companies && n.companies[c].parent == s.companies[c].parent && n.companies[c].born == s.companies[c].born
  }

  lemma ApplyExtends(s: State, r: Request)
    requires Inv(s) && Accepted(s, r)
    ensures var n := Apply(s, r); Forest(n.companies) && Extends(s, n)
    ensures var n := Apply(s, r); forall c :: c in n.companies ==> n.companies[c].born < n.births
  {
  }

  lemma ApplyKeeps(s: State, r: Request)
    requires Inv(s) && Accepted(s, r)
    ensures Inv(Apply(s, r)) && Extends(s, Apply(s, r))
  {
    ApplyExtends(s, r);
    var n := Apply(s, r);
    forall c ensures c in n.subscriptions <==> IsRoot(n, c) {
      assert c in s.subscriptions <==> IsRoot(s, c);
    }
    forall c, m | (c, m) in n.overrides ensures IsRoot(n, c) {
      assert (c, m) in s.overrides ==> IsRoot(s, c);
    }
  }

  /** A request that is refused changes nothing. */
  ghost function Exec(s: State, r: Request): (n: State)
    requires Inv(s)
    ensures Inv(n) && Extends(s, n)
  {
    if Accepted(s, r) then ApplyKeeps(s, r); Apply(s, r) else s
  }

  // ---------------------------------------------------------------- the console and the queries

  class Platform {
    var companies: Companies
    var births: nat
    var subscriptions: map<CompanyId, Subscription>
    var overrides: map<(CompanyId, Module), bool>

    ghost function Value(): State
      reads this
    {
      State(companies, births, subscriptions, overrides)
    }

    constructor ()
      ensures Value() == Empty()
    {
      companies, births, subscriptions, overrides := map[], 0, map[], map[];
    }

    method RootCompanyId(id: CompanyId) returns (root: CompanyId)
      requires Forest(companies) && id in companies
      ensures root == RootOf(companies, id)
    {
      root := id;
      while companies[root].parent.Some?
        invariant root in companies && RootOf(companies, root) == RootOf(companies, id)
        decreases companies[root].born
      {
        root := companies[root].parent.value;
      }
    }

    method IsCompanyLive(target: CompanyId) returns (live: bool)
      requires Forest(companies)
      ensures live <==> IsLive(companies, target)
    {
      if target !in companies {
        return false;
      }
      var current := Some(target);
      live := true;
      while current.Some?
        invariant current.Some? ==> current.value in companies
        invariant IsLive(companies, target) <==> live && (current.Some? ==> IsLive(companies, current.value))
        decreases if current.Some? then companies[current.value].born + 1 else 0
      {
        var company := companies[current.value];
        live := live && !company.deleted;
        current := company.parent;
      }
    }

    method IsModuleAllowed(id: CompanyId, m: Module) returns (allowed: bool)
      requires Forest(companies) && id in companies
      ensures allowed == ModuleAllowed(Value(), id, m)
    {
      var root := RootCompanyId(id);
      if (root, m) in overrides {
        return overrides[(root, m)];
      }
      if root !in subscriptions {
        return true;
      }
      return Rank(subscriptions[root].tier) >= Rank(MinTier(m));
    }

    method Register(id: CompanyId, tier: Tier, standing: Standing) returns (ok: bool)
      requires Inv(Value())
      modifies this
      ensures Value() == Exec(old(Value()), Request.Register(id, tier, standing))
      ensures ok == Accepted(old(Value()), Request.Register(id, tier, standing))
    {
      if id in companies {
        return false;
      }
      companies := companies[id := Company(None, false, births)];
      births := births + 1;
      subscriptions := subscriptions[id := Subscription(tier, standing)];
      return true;
    }

    method CreateChild(parent: CompanyId, id: CompanyId) returns (ok: bool)
      requires Inv(Value())
      modifies this
      ensures Value() == Exec(old(Value()), Request.CreateChild(parent, id))
      ensures ok == Accepted(old(Value()), Request.CreateChild(parent, id))
    {
      if parent !in companies || id in companies {
        return false;
      }
      var live := IsCompanyLive(parent);
      if !live {
        return false;
      }
      var root := RootCompanyId(parent);
      if root in subscriptions && subscriptions[root].standing != Trialing && subscriptions[root].standing != Active {
        return false;
      }
      var allowed := IsModuleAllowed(parent, ChildBranches);
      if !allowed {
        return false;
      }
      companies := companies[id := Company(Some(parent), false, births)];
      births := births + 1;
      return true;
    }

    method DeactivateTenant(id: CompanyId) returns (ok: bool)
      requires Inv(Value())
      modifies this
      ensures Value() == Exec(old(Value()), Deactivate(id))
      ensures ok == Accepted(old(Value()), Deactivate(id))
    {
      if id !in companies || companies[id].deleted {
        return false;
      }
      companies := companies[id := companies[id].(deleted := true)];
      return true;
    }

    method RestoreTenant(id: CompanyId) returns (ok: bool)
      requires Inv(Value())
      modifies this
      ensures Value() == Exec(old(Value()), Restore(id))
      ensures ok == Accepted(old(Value()), Restore(id))
    {
      if id !in companies || !companies[id].deleted {
        return false;
      }
      companies := companies[id := companies[id].(deleted := false)];
      return true;
    }

    method SetModuleOverride(id: CompanyId, m: Module, enabled: bool) returns (ok: bool)
      requires Inv(Value())
      modifies this
      ensures Value() == Exec(old(Value()), SetOverride(id, m, enabled))
      ensures ok == Accepted(old(Value()), SetOverride(id, m, enabled))
    {
      if id !in companies || companies[id].parent.Some? {
        return false;
      }
      overrides := overrides[(id, m) := enabled];
      return true;
    }

    method ClearModuleOverride(id: CompanyId, m: Module) returns (ok: bool)
      requires Inv(Value())
      modifies this
      ensures Value() == Exec(old(Value()), ClearOverride(id, m))
      ensures ok == Accepted(old(Value()), ClearOverride(id, m))
    {
      if id !in companies || companies[id].parent.Some? || (id, m) !in overrides {
        return false;
      }
      overrides := overrides - {(id, m)};
      return true;
    }
  }

  // ---------------------------------------------------------------- every run

  ghost function Run(s: State, requests: seq<Request>): (n: State)
    requires Inv(s)
    ensures Inv(n) && Extends(s, n)
  {
    if requests == [] then s
    else
      var n := Run(s, requests[..|requests| - 1]);
      Exec(n, requests[|requests| - 1])
  }

  lemma {:induction false} ExtendsKeepsWalks(s: State, n: State, c: CompanyId)
    requires Forest(s.companies) && Forest(n.companies) && Extends(s, n) && c in s.companies
    ensures c in n.companies && RootOf(n.companies, c) == RootOf(s.companies, c)
    ensures Ancestry(n.companies, c) == Ancestry(s.companies, c)
    decreases s.companies[c].born
  {
    if s.companies[c].parent.Some? {
      ExtendsKeepsWalks(s, n, s.companies[c].parent.value);
    }
  }

  /**
   From nothing, over every run: every company's walk up ends, at exactly one company without
   a parent, which holds the tree's subscription; and no later run changes it.
   */
  lemma RootsNeverChange(requests: seq<Request>, later: seq<Request>, c: CompanyId)
    requires c in Run(Empty(), requests).companies
    ensures var s := Run(Empty(), requests); var n := Run(s, later); var root := RootOf(s.companies, c);
            && OnlyRoot(s.companies, Ancestry(s.companies, c), root) && root in s.subscriptions
            && c in n.companies && RootOf(n.companies, c) == root
  {
    var s := Run(Empty(), requests);
    RootIsTheOneWithoutParent(s.companies, c);
    ExtendsKeepsWalks(s, Run(s, later), c);
    assert IsRoot(s, RootOf(s.companies, c));
  }

  /** A new branch is live, in its parent's tree, with all the tree may use; nobody else notices. */
  lemma NewBranchJoinsItsTree(s: State, parent: CompanyId, id: CompanyId, m: Module)
    requires Inv(s) && Accepted(s, CreateChild(parent, id))
    ensures var n := Exec(s, CreateChild(parent, id));
            && id in n.companies && RootOf(n.companies, id) == RootOf(s.companies, parent)
            && IsLive(n.companies, id) && MayWrite(n, id)
            && ModuleAllowed(n, id, m) == ModuleAllowed(s, parent, m)
            && n.companies - {id} == s.companies
  {
    var n := Exec(s, CreateChild(parent, id));
    ExtendsKeepsWalks(s, n, parent);
    RootIsTheOneWithoutParent(s.companies, parent);
    assert n.companies[id].parent == Some(parent) && RootOf(n.companies, id) == RootOf(n.companies, parent);
  }

  /** A new tenant is its own root, live, with what its tier gives; it may write if Stripe says so. */
  lemma NewTenantStandsAlone(s: State, id: CompanyId, tier: Tier, standing: Standing, m: Module)
    requires Inv(s) && Accepted(s, Register(id, tier, standing))
    ensures var n := Exec(s, Register(id, tier, standing));
            && id in n.companies && RootOf(n.companies, id) == id && IsLive(n.companies, id)
            && (MayWrite(n, id) <==> standing == Trialing || standing == Active)
            && (ModuleAllowed(n, id, m) <==>
                  tier == Enterprise || (tier == Pro && (m == Estimation || m == Compliance)))
            && n.companies - {id} == s.companies
  {
    var n := Exec(s, Register(id, tier, standing));
    assert !IsRoot(s, id) && Ancestry(n.companies, id) == [id];
  }

  // ---------------------------------------------------------------- entitlements

  /**
   The console's list for a company's root, made from the tier it shows, decides every
   module as the gate does for that company, and for every other branch of the tree.
   */
  lemma GateAgreesWithConsole(s: State, c: CompanyId, branch: CompanyId, m: Module)
    requires Inv(s) && c in s.companies && branch in s.companies
    requires RootOf(s.companies, branch) == RootOf(s.companies, c)
    ensures RootOf(s.companies, c) in s.companies
    ensures RootOf(s.companies, RootOf(s.companies, c)) == RootOf(s.companies, c)
    ensures var root := RootOf(s.companies, c);
            EntitlementOf(s, root, TierOf(s, root), m).effective
              == ModuleAllowed(s, c, m) == ModuleAllowed(s, branch, m)
  {
    RootIsTheOneWithoutParent(s.companies, c);
  }

  /** The list has five lines, and every module is in it: so each once. */
  lemma EveryModuleListed(m: Module)
    ensures |MODULES| == 5 && m in MODULES
  {
    assert MODULES[0] == Estimation && MODULES[1] == Compliance && MODULES[2] == Accounting;
    assert MODULES[3] == Integrations && MODULES[4] == ChildBranches;
    match m case Estimation | Compliance | Accounting | Integrations | ChildBranches =>
  }

  /** An override decides its module for exactly its own tree. */
  lemma OverrideDecidesItsTree(s: State, id: CompanyId, m: Module, enabled: bool, c: CompanyId, other: Module)
    requires Inv(s) && c in s.companies && Accepted(s, SetOverride(id, m, enabled))
    ensures ModuleAllowed(Exec(s, SetOverride(id, m, enabled)), c, other)
         == if RootOf(s.companies, c) == id && other == m then enabled else ModuleAllowed(s, c, other)
  {
  }

  /** Clearing it gives that tree's module back to the tier. */
  lemma ClearingDefersToTheTier(s: State, id: CompanyId, m: Module, c: CompanyId, other: Module)
    requires Inv(s) && c in s.companies && Accepted(s, ClearOverride(id, m))
    ensures ModuleAllowed(Exec(s, ClearOverride(id, m)), c, other)
         == if RootOf(s.companies, c) == id && other == m
              then TierAllows(TierOf(s, c), m)
              else ModuleAllowed(s, c, other)
  {
  }

  /** A change of plan decides every module without an override, for exactly its tree. */
  lemma PlanDecidesItsTree(s: State, id: CompanyId, tier: Tier, c: CompanyId, m: Module)
    requires Inv(s) && c in s.companies && Accepted(s, SetTier(id, tier))
    ensures ModuleAllowed(Exec(s, SetTier(id, tier)), c, m)
         == if RootOf(s.companies, c) == id && (id, m) !in s.overrides
              then tier == Enterprise || (tier == Pro && (m == Estimation || m == Compliance))
              else ModuleAllowed(s, c, m)
    ensures MayWrite(Exec(s, SetTier(id, tier)), c) == MayWrite(s, c)
  {
  }

  /** A change of standing decides who may write, for exactly its tree. */
  lemma StandingDecidesItsTree(s: State, id: CompanyId, standing: Standing, c: CompanyId, m: Module)
    requires Inv(s) && c in s.companies && Accepted(s, SetStanding(id, standing))
    ensures MayWrite(Exec(s, SetStanding(id, standing)), c)
         == if RootOf(s.companies, c) == id then standing == Trialing || standing == Active else MayWrite(s, c)
    ensures ModuleAllowed(Exec(s, SetStanding(id, standing)), c, m) == ModuleAllowed(s, c, m)
  {
  }

  /**
   What is accepted: ids not taken; branches under a live company in good standing that has
   the module, by override or by plan; each flag and override only where it is not, or is, set;
   and plans and overrides for companies without a parent alone.
   */
  lemma AcceptedExactly(s: State, r: Request)
    requires Inv(s)
    ensures Accepted(s, r) <==>
              match r
              case Register(id, _, _) => id !in s.companies
              case CreateChild(parent, id) =>
                && id !in s.companies && parent in s.companies && IsLive(s.companies, parent)
                && var root := RootOf(s.companies, parent);
                   && root in s.subscriptions
                   && (s.subscriptions[root].standing == Trialing || s.subscriptions[root].standing == Active)
                   && if (root, ChildBranches) in s.overrides then s.overrides[(root, ChildBranches)]
                      else s.subscriptions[root].tier == Enterprise
              case Deactivate(id) => id in s.companies && s.companies[id].deleted == false
              case Restore(id) => id in s.companies && s.companies[id].deleted == true
              case SetTier(id, _) => id in s.companies && s.companies[id].parent == None
              case SetStanding(id, _) => id in s.companies && s.companies[id].parent == None
              case SetOverride(id, _, _) => id in s.companies && s.companies[id].parent == None
              case ClearOverride(id, m) => (id, m) in s.overrides
  {
    match r
    case CreateChild(parent, _) =>
      if parent in s.companies {
        RootIsTheOneWithoutParent(s.companies, parent);
        assert IsRoot(s, RootOf(s.companies, parent));
      }
    case SetTier(id, _) => assert id in s.subscriptions <==> IsRoot(s, id);
    case SetStanding(id, _) => assert id in s.subscriptions <==> IsRoot(s, id);
    case _ =>
  }

  /** A higher tier withholds nothing from anyone, and a tier says nothing where an override does. */
  lemma UpgradeOnlyAdds(s: State, id: CompanyId, tier: Tier, c: CompanyId, m: Module)
    requires Inv(s) && c in s.companies && Accepted(s, SetTier(id, tier))
    ensures Rank(tier) >= Rank(s.subscriptions[id].tier) && ModuleAllowed(s, c, m) ==>
              ModuleAllowed(Exec(s, SetTier(id, tier)), c, m)
    ensures RootOf(s.companies, c) != id || (id, m) in s.overrides ==>
              (ModuleAllowed(Exec(s, SetTier(id, tier)), c, m) <==> ModuleAllowed(s, c, m))
  {
  }

  // ---------------------------------------------------------------- in and out of service

  ghost predicate InService(cs: Companies, some: set<CompanyId>) {
    forall c :: c in some ==> c in cs && !cs[c].deleted
  }

  /** Live means: some set with the company and every member's parent is all in service. */
  lemma LiveIff(cs: Companies, c: CompanyId)
    requires Forest(cs)
    ensures IsLive(cs, c) <==> exists some :: c in some && ClosedUpwards(cs, some) && InService(cs, some)
  {
    if IsLive(cs, c) {
      AncestryIsClosed(cs, c);
      var some := set a | a in Ancestry(cs, c);
      assert c in some && InService(cs, some);
    }
    if some :| c in some && ClosedUpwards(cs, some) && InService(cs, some) {
      AncestryIsLeast(cs, c, some);
    }
  }

  ghost predicate SameFlags(s: State, n: State) {
    forall c :: c in s.companies && c in n.companies ==>
      n.companies[c].deleted == s.companies[c].deleted
  }

  /** With the same flags below, companies are live in both states or in neither. */
  lemma SameFlagsSameLiveness(s: State, n: State, c: CompanyId)
    requires Forest(s.companies) && Forest(n.companies) && Extends(s, n) && SameFlags(s, n) && c in s.companies
    ensures IsLive(n.companies, c) <==> IsLive(s.companies, c)
  {
    ExtendsKeepsWalks(s, n, c);
    RootIsTheOneWithoutParent(s.companies, c);
  }

  /** Deactivating a company takes out of service it and its descendants, and no one else. */
  lemma DeactivateTakesTheSubtree(s: State, id: CompanyId, c: CompanyId)
    requires Inv(s) && Accepted(s, Deactivate(id)) && c in s.companies
    ensures IsLive(Exec(s, Deactivate(id)).companies, c)
       <==> IsLive(s.companies, c) && id !in Ancestry(s.companies, c)
  {
    var n := Exec(s, Deactivate(id));
    ExtendsKeepsWalks(s, n, c);
    RootIsTheOneWithoutParent(s.companies, c);
  }

  /** Restoring it brings back those with nothing else above them out of service. */
  lemma RestoreBringsBack(s: State, id: CompanyId, c: CompanyId)
    requires Inv(s) && Accepted(s, Restore(id)) && c in s.companies
    ensures IsLive(Exec(s, Restore(id)).companies, c)
       <==> forall a :: a in Ancestry(s.companies, c) && a != id ==> a in s.companies && !s.companies[a].deleted
  {
    var n := Exec(s, Restore(id));
    ExtendsKeepsWalks(s, n, c);
    RootIsTheOneWithoutParent(s.companies, c);
  }

  predicate NoLifecycle(requests: seq<Request>) {
    forall i :: 0 <= i < |requests| ==> !requests[i].Deactivate? && !requests[i].Restore?
  }

  lemma StepKeepsFlags(s: State, r: Request)
    requires Inv(s) && !r.Deactivate? && !r.Restore?
    ensures SameFlags(s, Exec(s, r))
  {
  }

  lemma {:induction false} FlagsKept(s: State, requests: seq<Request>)
    requires Inv(s) && NoLifecycle(requests)
    ensures SameFlags(s, Run(s, requests))
  {
    if requests != [] {
      FlagsKept(s, requests[..|requests| - 1]);
      StepKeepsFlags(Run(s, requests[..|requests| - 1]), requests[|requests| - 1]);
    }
  }

  /**
   Deactivate a company, do anything but deactivate or restore, and restore it: everyone who
   was there is live exactly if they were.
   */
  lemma RestoredAsItWas(s: State, id: CompanyId, between: seq<Request>, c: CompanyId)
    requires Inv(s) && Accepted(s, Deactivate(id)) && NoLifecycle(between) && c in s.companies
    ensures var n := Run(Exec(s, Deactivate(id)), between);
            Accepted(n, Restore(id)) && (IsLive(Exec(n, Restore(id)).companies, c) <==> IsLive(s.companies, c))
  {
    var out := Exec(s, Deactivate(id));
    var n := Run(out, between);
    FlagsKept(out, between);
    assert id in out.companies && id in n.companies && n.companies[id].deleted;
    SameFlagsSameLiveness(s, Exec(n, Restore(id)), c);
  }
}
