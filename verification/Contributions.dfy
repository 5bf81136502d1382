/** The project-scoped store of published contributions (contribution.rs, `ContributionStore`). */
module Contributions {
  import opened Basics

  const MAX_CONTRIBUTIONS_PER_PACKAGE: nat := 32
  const MAX_CONTRIBUTIONS_PER_PROJECT: nat := 256

  datatype ContributionError =
    | Duplicate | Unknown | WrongProject | WrongOwner | StaleGeneration | WrongHostSession | Invalid | LimitExceeded
    | ExpectedOldMismatch

  /** A declared contribution; `valid` stands for the checks of its kind, schemas and texts. */
  datatype Contribution = Contribution(capability: Id, valid: bool)

  datatype Key = Key(project: Id, capability: Id)

  datatype Record = Record(identity: InstanceIdentity, contribution: Contribution)

  type Records = map<Key, Record>

  datatype Candidate = Candidate(identity: InstanceIdentity, contributions: seq<Contribution>)

  ghost predicate Staged(c: Candidate) {
    && |c.contributions| <= MAX_CONTRIBUTIONS_PER_PACKAGE
    && (forall i :: 0 <= i < |c.contributions| ==> c.contributions[i].valid)
    && forall i, j :: 0 <= i < j < |c.contributions| ==> c.contributions[i].capability != c.contributions[j].capability
  }

  predicate Owns(r: Record, project: Id, plugin: Id) { r.identity.project == project && r.identity.plugin == plugin }

  function InProject(records: Records, project: Id): set<Key> { set k | k in records && k.project == project }

  /** What the other plugins have published. */
  function Others(records: Records, project: Id, plugin: Id): Records {
    map k | k in records && !Owns(records[k], project, plugin) :: records[k]
  }

  /** Every record is filed under its own project and capability. */
  ghost predicate Filed(records: Records) {
    forall k :: k in records ==> k.project == records[k].identity.project && k.capability == records[k].contribution.capability
  }

  /** All contributions of one plugin in one project come from one and the same running instance. */
  ghost predicate Unmixed(records: Records) {
    forall a, b :: a in records && b in records && Owns(records[b], records[a].identity.project, records[a].identity.plugin) ==>
      records[a].identity == records[b].identity
  }

  ghost predicate WithinBudget(records: Records) {
    forall project :: FitsIn(records, project)
  }

  ghost predicate FitsIn(records: Records, project: Id) { |InProject(records, project)| <= MAX_CONTRIBUTIONS_PER_PROJECT }

  /** The identity currently published for a plugin. */
  ghost predicate IsCurrent(records: Records, project: Id, plugin: Id, current: Option<InstanceIdentity>) {
    && (current.None? ==> forall k :: k in records ==> !Owns(records[k], project, plugin))
    && (current.Some? ==>
          && (exists k :: k in records && Owns(records[k], project, plugin))
          && forall k :: k in records && Owns(records[k], project, plugin) ==> records[k].identity == current.value)
  }

  lemma CurrentIsUnique(records: Records, project: Id, plugin: Id, a: Option<InstanceIdentity>, b: Option<InstanceIdentity>)
    requires IsCurrent(records, project, plugin, a) && IsCurrent(records, project, plugin, b)
    ensures a == b
  {
    if k :| k in records && Owns(records[k], project, plugin) {
      assert a == Some(records[k].identity) && b == Some(records[k].identity);
    }
  }

  // ---------------------------------------------------------------- one-shot publication

  /** The candidate's records and no other record of its plugin. */
  ghost function Replacement(records: Records, c: Candidate): Records {
    Others(records, c.identity.project, c.identity.plugin) + Filing(c.identity, c.contributions)
  }

  ghost function Filing(identity: InstanceIdentity, contributions: seq<Contribution>): Records {
    if contributions == [] then map[]
    else
      var last := contributions[|contributions|-1];
      Filing(identity, contributions[..|contributions|-1])[Key(identity.project, last.capability) := Record(identity, last)]
  }

  /** Some other plugin of the project already owns one of the capabilities. */
  ghost predicate TakenAt(records: Records, c: Candidate, i: int) {
    0 <= i < |c.contributions| && Key(c.identity.project, c.contributions[i].capability) in Others(records, c.identity.project, c.identity.plugin)
  }

  ghost predicate Taken(records: Records, c: Candidate) {
    exists i :: TakenAt(records, c, i)
  }

  /** A taken capability comes up while the project still has room for it. */
  ghost predicate TakenWithinRoom(records: Records, c: Candidate) {
    exists i :: TakenAt(records, c, i)
      && |InProject(Others(records, c.identity.project, c.identity.plugin), c.identity.project)| + i < MAX_CONTRIBUTIONS_PER_PROJECT
  }

  ghost predicate FitsProject(records: Records, c: Candidate) {
    |InProject(Others(records, c.identity.project, c.identity.plugin), c.identity.project)| + |c.contributions| <=
      MAX_CONTRIBUTIONS_PER_PROJECT
  }

  method Stage(identity: InstanceIdentity, declarations: seq<Contribution>) returns (r: Result<Candidate, ContributionError>)
    ensures r.Ok? <==> Staged(Candidate(identity, declarations))
    ensures r.Ok? ==> r.value == Candidate(identity, declarations)
    ensures r == Err(LimitExceeded) <==> |declarations| > MAX_CONTRIBUTIONS_PER_PACKAGE
    ensures r == Err(Duplicate) ==> exists i, j :: 0 <= i < j < |declarations| && declarations[i].capability == declarations[j].capability
    ensures r == Err(Invalid) ==> exists i :: 0 <= i < |declarations| && !declarations[i].valid
    ensures r.Err? ==> r.error == LimitExceeded || r.error == Duplicate || r.error == Invalid
  {
    if |declarations| > MAX_CONTRIBUTIONS_PER_PACKAGE {
      return Err(LimitExceeded);
    }
    var seen: set<Id> := {};
    for i := 0 to |declarations|
      invariant forall x :: x in seen <==> exists j :: 0 <= j < i && declarations[j].capability == x
      invariant Staged(Candidate(identity, declarations[..i]))
    {
      if declarations[i].capability in seen {
        return Err(Duplicate);
      }
      seen := seen + {declarations[i].capability};
      if !declarations[i].valid {
        return Err(Invalid);
      }
      assert declarations[..i+1] == declarations[..i] + [declarations[i]];
    }
    assert declarations[..|declarations|] == declarations;
    return Ok(Candidate(identity, declarations));
  }

  class ContributionStore {
    var records: Records

    ghost predicate Valid()
      reads this
    {
      Filed(records) && Unmixed(records) && WithinBudget(records)
    }

    constructor ()
      ensures Valid() && records == map[]
    {
      records := map[];
    }

    function Get(project: Id, capability: Id): Option<Record>
      reads this
    {
      if Key(project, capability) in records then Some(records[Key(project, capability)]) else None
    }

    /** The identity published for a plugin, unless its records disagree. */
    method CurrentIdentity(project: Id, plugin: Id) returns (r: Result<Option<InstanceIdentity>, ContributionError>)
      ensures r.Ok? ==> IsCurrent(records, project, plugin, r.value)
      ensures r.Err? ==> r.error == Invalid && !Unmixed(records) && forall c :: !IsCurrent(records, project, plugin, c)
    {
      var current: Option<InstanceIdentity> := None;
      var pending := records.Keys;
      while pending != {}
        invariant pending <= records.Keys
        invariant current.None? ==> forall k :: k in records && k !in pending ==> !Owns(records[k], project, plugin)
        invariant current.Some? ==> exists k :: k in records && k !in pending && Owns(records[k], project, plugin)
        invariant current.Some? ==> forall k :: k in records && k !in pending && Owns(records[k], project, plugin) ==>
          records[k].identity == current.value
        decreases pending
      {
        var k :| k in pending;
        if Owns(records[k], project, plugin) {
          if current.Some? && current.value != records[k].identity {
            return Err(Invalid);
          }
          current := Some(records[k].identity);
        }
        pending := pending - {k};
      }
      return Ok(current);
    }

    /** Registers one contribution, whatever its plugin has published before. */
    method Register(identity: InstanceIdentity, contribution: Contribution) returns (r: Option<ContributionError>)
      requires Filed(records) && WithinBudget(records)
      modifies this
      ensures Filed(records) && WithinBudget(records)
      ensures r.None? <==> RegisterFault(old(records), identity, contribution).None?
      ensures r.Some? ==> r == RegisterFault(old(records), identity, contribution) && records == old(records)
      ensures r.None? ==>
        records == old(records)[Key(identity.project, contribution.capability) := Record(identity, contribution)]
    {
      var next;
      next, r := RegisterIn(records, identity, contribution);
      if r.None? {
        InsertKeepsBudget(records, Key(identity.project, contribution.capability), Record(identity, contribution));
        records := next;
      }
    }

    /**
     * Replaces everything a plugin has published in one step, or changes nothing. It succeeds exactly when the
     * published identity is the expected one, no other plugin of the project owns one of the capabilities, and the
     * project stays within its budget.
     */
    method Publish(candidate: Candidate, expected: Option<InstanceIdentity>)
      returns (r: Result<Option<InstanceIdentity>, ContributionError>)
      requires Valid() && Staged(candidate)
      modifies this
      ensures Valid()
      ensures r.Ok? <==>
        && IsCurrent(old(records), candidate.identity.project, candidate.identity.plugin, expected)
        && !Taken(old(records), candidate) && FitsProject(old(records), candidate)
      ensures r.Ok? ==> r.value == expected && records == Replacement(old(records), candidate)
      ensures r.Err? ==> records == old(records)
      ensures r.Err? ==>
        r.error == (
          if !IsCurrent(old(records), candidate.identity.project, candidate.identity.plugin, expected) then ExpectedOldMismatch
          else if TakenWithinRoom(old(records), candidate) then Duplicate
          else LimitExceeded)
    {
      var identity := candidate.identity;
      var current := CurrentIdentity(identity.project, identity.plugin);
      CurrentDecides(records, identity.project, identity.plugin, current.value, expected);
      if current.value != expected {
        return Err(ExpectedOldMismatch);
      }
      var next, fault := BuildReplacement(records, candidate);
      if fault.Some? {
        return Err(fault.value);
      }
      ReplacementIsValid(records, candidate);
      records := next;
      return Ok(current.value);
    }

    /** Withdraws exactly the published instance. */
    method Unpublish(identity: InstanceIdentity) returns (r: Option<ContributionError>)
      requires Valid()
      modifies this
      ensures Valid()
      ensures r.None? <==> IsCurrent(old(records), identity.project, identity.plugin, Some(identity))
      ensures r.None? ==> records == Others(old(records), identity.project, identity.plugin)
      ensures r.Some? ==> r == Some(ExpectedOldMismatch) && records == old(records)
    {
      var current := CurrentIdentity(identity.project, identity.plugin);
      CurrentDecides(records, identity.project, identity.plugin, current.value, Some(identity));
      if current.value != Some(identity) {
        return Some(ExpectedOldMismatch);
      }
      assert Without(records, identity) == Others(records, identity.project, identity.plugin);
      ClearInstance(identity);
      return None;
    }

    /** Removes one contribution for the instance that published it. */
    method Remove(identity: InstanceIdentity, capability: Id) returns (r: Option<ContributionError>)
      requires Valid()
      modifies this
      ensures Valid()
      ensures var k := Key(identity.project, capability);
        && (r.None? <==> k in old(records) && old(records)[k].identity == identity)
        && records == if r.None? then old(records) - {k} else old(records)
      ensures r == Some(WrongProject) || r == Some(Unknown) <==> Key(identity.project, capability) !in old(records)
      ensures r == Some(Unknown) <==> forall k :: k in old(records) ==> old(records)[k].contribution.capability != capability
    {
      var k := Key(identity.project, capability);
      if k in records {
        var found := records[k].identity;
        if found.plugin != identity.plugin || found.digest != identity.digest {
          return Some(WrongOwner);
        }
        if found.generation != identity.generation {
          return Some(StaleGeneration);
        }
        if found.host != identity.host {
          return Some(WrongHostSession);
        }
        RestrictionIsValid(records, records - {k});
        records := records - {k};
        return None;
      }
      if exists o :: o in records && records[o].contribution.capability == capability {
        return Some(WrongProject);
      }
      return Some(Unknown);
    }

    method ClearProject(project: Id)
      requires Valid()
      modifies this
      ensures Valid() && records == map k | k in old(records) && k.project != project :: old(records)[k]
    {
      var next := map k | k in records && k.project != project :: records[k];
      RestrictionIsValid(records, next);
      records := next;
    }

    method ClearInstance(identity: InstanceIdentity)
      requires Valid()
      modifies this
      ensures Valid() && records == Without(old(records), identity)
    {
      RestrictionIsValid(records, Without(records, identity));
      records := Without(records, identity);
    }
  }

  function Without(records: Records, identity: InstanceIdentity): Records {
    map k | k in records && !(k.project == identity.project && records[k].identity.(project := identity.project) == identity) :: records[k]
  }

  /** Dropping records keeps what holds of all of them. */
  lemma RestrictionIsValid(records: Records, next: Records)
    requires Filed(records) && Unmixed(records) && WithinBudget(records)
    requires next.Keys <= records.Keys && forall k :: k in next ==> next[k] == records[k]
    ensures Filed(next) && Unmixed(next) && WithinBudget(next)
  {
    forall p ensures FitsIn(next, p) {
      assert FitsIn(records, p);
      SubsetSize(InProject(next, p), InProject(records, p));
    }
  }

  /** On a copy without the plugin's old records, the contributions are registered one by one. */
  method BuildReplacement(records: Records, candidate: Candidate) returns (next: Records, fault: Option<ContributionError>)
    requires WithinBudget(records) && Staged(candidate)
    ensures fault.None? ==> next == Replacement(records, candidate) && Progress(records, candidate, |candidate.contributions|)
    ensures fault.Some? ==> Taken(records, candidate) || !FitsProject(records, candidate)
    ensures fault.Some? ==> fault.value == if TakenWithinRoom(records, candidate) then Duplicate else LimitExceeded
  {
    var identity := candidate.identity;
    var others := Others(records, identity.project, identity.plugin);
    next, fault := others, None;
    OthersFit(records, identity.project, identity.plugin);
    assert FitsIn(others, identity.project);
    for i := 0 to |candidate.contributions|
      invariant next == others + Filing(identity, candidate.contributions[..i]) && fault.None?
      invariant Progress(records, candidate, i)
    {
      PublishStep(records, candidate, i, next);
      next, fault := RegisterIn(next, identity, candidate.contributions[i]);
      if fault.Some? {
        return;
      }
    }
    assert candidate.contributions[..|candidate.contributions|] == candidate.contributions;
  }

  function RegisterFault(records: Records, identity: InstanceIdentity, c: Contribution): Option<ContributionError> {
    if !c.valid then Some(Invalid)
    else if |InProject(records, identity.project)| >= MAX_CONTRIBUTIONS_PER_PROJECT then Some(LimitExceeded)
    else if Key(identity.project, c.capability) in records then Some(Duplicate)
    else None
  }

  method RegisterIn(records: Records, identity: InstanceIdentity, c: Contribution) returns (next: Records, fault: Option<ContributionError>)
    ensures fault == RegisterFault(records, identity, c)
    ensures next == if fault.None? then Registered(records, identity, c) else records
  {
    fault := RegisterFault(records, identity, c);
    next := records;
    if fault.None? {
      next := records[Key(identity.project, c.capability) := Record(identity, c)];
    }
  }

  /** The first `i` contributions found no owner and still fitted. */
  ghost predicate Progress(records: Records, c: Candidate, i: nat)
    requires i <= |c.contributions|
  {
    var others := Others(records, c.identity.project, c.identity.plugin);
    && (forall j :: 0 <= j < i ==> !TakenAt(records, c, j))
    && |InProject(others, c.identity.project)| + i <= MAX_CONTRIBUTIONS_PER_PROJECT
  }

  lemma CurrentDecides(records: Records, project: Id, plugin: Id, current: Option<InstanceIdentity>, expected: Option<InstanceIdentity>)
    requires IsCurrent(records, project, plugin, current)
    ensures IsCurrent(records, project, plugin, expected) <==> current == expected
  {
    if IsCurrent(records, project, plugin, expected) { CurrentIsUnique(records, project, plugin, current, expected); }
  }

  lemma {:induction false} FilingKeys(identity: InstanceIdentity, contributions: seq<Contribution>)
    ensures forall k :: k in Filing(identity, contributions) <==>
      exists i :: 0 <= i < |contributions| && k == Key(identity.project, contributions[i].capability)
    ensures forall k :: k in Filing(identity, contributions) ==>
      Filing(identity, contributions)[k].identity == identity && k.capability == Filing(identity, contributions)[k].contribution.capability
  {
    if contributions != [] {
      var n := |contributions| - 1;
      FilingKeys(identity, contributions[..n]);
      assert Key(identity.project, contributions[n].capability) in Filing(identity, contributions);
    }
  }

  lemma InsertKeepsBudget(records: Records, k: Key, r: Record)
    requires WithinBudget(records) && |InProject(records, k.project)| < MAX_CONTRIBUTIONS_PER_PROJECT
    ensures WithinBudget(records[k := r])
  {
    var next := records[k := r];
    forall p ensures FitsIn(next, p) {
      assert InProject(next, p) == InProject(records, p) + if p == k.project then {k} else {};
      assert FitsIn(records, p);
    }
  }

  lemma OthersFit(records: Records, project: Id, plugin: Id)
    requires WithinBudget(records)
    ensures WithinBudget(Others(records, project, plugin))
  {
    forall p ensures FitsIn(Others(records, project, plugin), p) {
      assert FitsIn(records, p);
      SubsetSize(InProject(Others(records, project, plugin), p), InProject(records, p));
    }
  }

  lemma {:induction false} FilingSize(identity: InstanceIdentity, contributions: seq<Contribution>)
    requires forall i, j :: 0 <= i < j < |contributions| ==> contributions[i].capability != contributions[j].capability
    ensures |Filing(identity, contributions).Keys| == |contributions|
  {
    if contributions != [] {
      var n := |contributions| - 1;
      FilingSize(identity, contributions[..n]);
      FilingKeys(identity, contributions[..n]);
      var k := Key(identity.project, contributions[n].capability);
      assert Filing(identity, contributions).Keys == Filing(identity, contributions[..n]).Keys + {k};
      assert k !in Filing(identity, contributions[..n]);
    }
  }

  /** The project's count once `i` contributions of the candidate stand beside the other plugins' records. */
  lemma NoneTaken(records: Records, c: Candidate, i: nat)
    requires i <= |c.contributions| && forall j :: 0 <= j < i ==> !TakenAt(records, c, j)
    ensures Filing(c.identity, c.contributions[..i]).Keys !! Others(records, c.identity.project, c.identity.plugin).Keys
  {
    FilingKeys(c.identity, c.contributions[..i]);
    forall k | k in Filing(c.identity, c.contributions[..i]) ensures k !in Others(records, c.identity.project, c.identity.plugin) {
      var j :| 0 <= j < i && k == Key(c.identity.project, c.contributions[..i][j].capability);
      assert !TakenAt(records, c, j);
    }
  }

  lemma CountBeside(records: Records, c: Candidate, i: nat)
    requires Staged(c) && i <= |c.contributions| && Progress(records, c, i)
    ensures var others := Others(records, c.identity.project, c.identity.plugin);
      |InProject(others + Filing(c.identity, c.contributions[..i]), c.identity.project)| == |InProject(others, c.identity.project)| + i
  {
    var others := Others(records, c.identity.project, c.identity.plugin);
    var filing := Filing(c.identity, c.contributions[..i]);
    FilingKeys(c.identity, c.contributions[..i]);
    FilingSize(c.identity, c.contributions[..i]);
    NoneTaken(records, c, i);
    assert InProject(others + filing, c.identity.project) == InProject(others, c.identity.project) + filing.Keys;
    assert InProject(others, c.identity.project) !! filing.Keys;
  }

  /** The next contribution meets a full project first, and its owner only then. */
  lemma NextFault(records: Records, c: Candidate, i: nat, next: Records)
    requires Staged(c) && i < |c.contributions| && Progress(records, c, i)
    requires next == Others(records, c.identity.project, c.identity.plugin) + Filing(c.identity, c.contributions[..i])
    ensures RegisterFault(next, c.identity, c.contributions[i]) ==
      if |InProject(Others(records, c.identity.project, c.identity.plugin), c.identity.project)| + i >= MAX_CONTRIBUTIONS_PER_PROJECT
      then Some(LimitExceeded)
      else if TakenAt(records, c, i) then Some(Duplicate)
      else None
  {
    var k := Key(c.identity.project, c.contributions[i].capability);
    CountBeside(records, c, i);
    FilingKeys(c.identity, c.contributions[..i]);
    assert k !in Filing(c.identity, c.contributions[..i]);
    assert c.contributions[i].valid;
  }

  lemma FilingExtended(c: Candidate, i: nat, others: Records)
    requires i < |c.contributions|
    ensures Registered(others + Filing(c.identity, c.contributions[..i]), c.identity, c.contributions[i]) ==
      others + Filing(c.identity, c.contributions[..i+1])
  {
    assert c.contributions[..i+1][..i] == c.contributions[..i];
  }

  lemma PublishStep(records: Records, c: Candidate, i: nat, next: Records)
    requires Staged(c) && i < |c.contributions| && Progress(records, c, i)
    requires next == Others(records, c.identity.project, c.identity.plugin) + Filing(c.identity, c.contributions[..i])
    ensures RegisterFault(next, c.identity, c.contributions[i]).None? <==> Progress(records, c, i + 1)
    ensures Registered(next, c.identity, c.contributions[i]) ==
      Others(records, c.identity.project, c.identity.plugin) + Filing(c.identity, c.contributions[..i+1])
    ensures RegisterFault(next, c.identity, c.contributions[i]).Some? ==>
      && (Taken(records, c) || !FitsProject(records, c))
      && RegisterFault(next, c.identity, c.contributions[i]).value == if TakenWithinRoom(records, c) then Duplicate else LimitExceeded
  {
    NextFault(records, c, i, next);
    FilingExtended(c, i, Others(records, c.identity.project, c.identity.plugin));
  }

  lemma CandidateRecords(records: Records, c: Candidate, k: Key)
    requires k in Replacement(records, c)
    ensures k in Filing(c.identity, c.contributions) ==> Replacement(records, c)[k].identity == c.identity
    ensures k !in Filing(c.identity, c.contributions) ==>
      k in records && Replacement(records, c)[k] == records[k] && !Owns(records[k], c.identity.project, c.identity.plugin)
  {
    FilingKeys(c.identity, c.contributions);
  }

  lemma ReplacementIsValid(records: Records, c: Candidate)
    requires Filed(records) && Unmixed(records) && WithinBudget(records) && Staged(c)
    requires Progress(records, c, |c.contributions|)
    ensures Filed(Replacement(records, c)) && Unmixed(Replacement(records, c)) && WithinBudget(Replacement(records, c))
  {
    var next, filing := Replacement(records, c), Filing(c.identity, c.contributions);
    FilingKeys(c.identity, c.contributions);
    forall a, b | a in next && b in next && Owns(next[b], next[a].identity.project, next[a].identity.plugin)
      ensures next[a].identity == next[b].identity
    {
      CandidateRecords(records, c, a);
      CandidateRecords(records, c, b);
    }
    forall p ensures FitsIn(next, p) {
      assert FitsIn(records, p);
      if p == c.identity.project {
        assert c.contributions[..|c.contributions|] == c.contributions;
        CountBeside(records, c, |c.contributions|);
      } else {
        SubsetSize(InProject(next, p), InProject(records, p));
      }
    }
  }

  /** A publication concerns its own plugin in its own project and nothing else. */
  lemma PublicationIsIsolated(records: Records, c: Candidate)
    requires !Taken(records, c)
    ensures forall k :: k in records && !Owns(records[k], c.identity.project, c.identity.plugin) ==>
      k in Replacement(records, c) && Replacement(records, c)[k] == records[k]
    ensures forall k :: k in Replacement(records, c) && Owns(Replacement(records, c)[k], c.identity.project, c.identity.plugin) ==>
      Replacement(records, c)[k].identity == c.identity
    ensures IsCurrent(Replacement(records, c), c.identity.project, c.identity.plugin, if c.contributions == [] then None else Some(c.identity))
  {
    FilingKeys(c.identity, c.contributions);
    assert c.contributions[..|c.contributions|] == c.contributions;
    NoneTaken(records, c, |c.contributions|);
    forall k | k in Replacement(records, c) ensures k in Filing(c.identity, c.contributions) <==> Owns(Replacement(records, c)[k], c.identity.project, c.identity.plugin) {
      CandidateRecords(records, c, k);
    }
    if c.contributions != [] {
      assert Key(c.identity.project, c.contributions[0].capability) in Filing(c.identity, c.contributions);
    }
  }

  /** Registering directly mixes identities exactly when the plugin is published under another one. */
  lemma RegisterMixesExactly(records: Records, identity: InstanceIdentity, c: Contribution)
    requires Unmixed(records) && RegisterFault(records, identity, c).None?
    ensures Unmixed(Registered(records, identity, c)) <==>
      forall k :: k in records && Owns(records[k], identity.project, identity.plugin) ==> records[k].identity == identity
  {
    var k, next := Key(identity.project, c.capability), Registered(records, identity, c);
    if Unmixed(next) {
      forall o | o in records && Owns(records[o], identity.project, identity.plugin) ensures records[o].identity == identity {
        assert next[o] == records[o] && next[k].identity == identity;
      }
    }
  }

  function Registered(records: Records, identity: InstanceIdentity, c: Contribution): Records {
    records[Key(identity.project, c.capability) := Record(identity, c)]
  }

  /** Two direct registrations of one plugin under two generations, on an empty store: both succeed, and mix. */
  lemma RegisterCanMix() returns (a: InstanceIdentity, b: InstanceIdentity, x: Contribution, y: Contribution)
    ensures a.project == b.project && a.plugin == b.plugin
    ensures RegisterFault(map[], a, x).None? && RegisterFault(Registered(map[], a, x), b, y).None?
    ensures !Unmixed(Registered(Registered(map[], a, x), b, y))
  {
    a := InstanceIdentity(Id(0), Id(0), Id(0), 1, Id(0));
    b := a.(generation := 2);
    x, y := Contribution(Id(1), true), Contribution(Id(2), true);
    var k, l := Key(Id(0), Id(1)), Key(Id(0), Id(2));
    SubsetSize(InProject(Registered(map[], a, x), Id(0)), {k});
    var mixed := Registered(Registered(map[], a, x), b, y);
    assert mixed[k].identity != mixed[l].identity;
  }

  // ---------------------------------------------------------------- the same, key by key

  /** Somebody else's contribution in the candidate's project. */
  predicate IsForeign(records: Records, c: Candidate, k: Key) {
    k in records && k.project == c.identity.project && records[k].identity.plugin != c.identity.plugin
  }

  /** A candidate is refused as taken exactly when another plugin of its project has published one of its capabilities. */
  lemma TakenExactly(records: Records, c: Candidate)
    requires Filed(records)
    ensures Taken(records, c) <==>
      exists k, i :: IsForeign(records, c, k) && 0 <= i < |c.contributions| && k.capability == c.contributions[i].capability
  {
    if i :| TakenAt(records, c, i) {
      assert IsForeign(records, c, Key(c.identity.project, c.contributions[i].capability));
    }
    if k, i :| IsForeign(records, c, k) && 0 <= i < |c.contributions| && k.capability == c.contributions[i].capability {
      assert k == Key(c.identity.project, c.contributions[i].capability);
      assert TakenAt(records, c, i);
    }
  }

  /** It fits exactly when the other plugins of its project leave it enough room. */
  lemma FitsExactly(records: Records, c: Candidate)
    requires Filed(records)
    ensures FitsProject(records, c) <==> |set k | k in records && IsForeign(records, c, k)| + |c.contributions| <= 256
  {
    assert (set k | k in records && IsForeign(records, c, k)) ==
      InProject(Others(records, c.identity.project, c.identity.plugin), c.identity.project);
  }

  /** What the store holds under each key after a publication. */
  lemma PublishedExactly(records: Records, c: Candidate, k: Key)
    requires Filed(records) && Staged(c) && !Taken(records, c)
    ensures k in Replacement(records, c) <==>
      || (k.project == c.identity.project && exists i :: 0 <= i < |c.contributions| && k.capability == c.contributions[i].capability)
      || (k in records && (k.project != c.identity.project || records[k].identity.plugin != c.identity.plugin))
    ensures k.project == c.identity.project ==> forall i :: 0 <= i < |c.contributions| && k.capability == c.contributions[i].capability ==>
      Replacement(records, c)[k] == Record(c.identity, c.contributions[i])
    ensures k in records && (k.project != c.identity.project || records[k].identity.plugin != c.identity.plugin) ==>
      Replacement(records, c)[k] == records[k]
  {
    FilingKeys(c.identity, c.contributions);
    assert c.contributions[..|c.contributions|] == c.contributions;
    NoneTaken(records, c, |c.contributions|);
    FilingAt(c.identity, c.contributions, k);
  }

  lemma {:induction false} FilingAt(identity: InstanceIdentity, contributions: seq<Contribution>, k: Key)
    requires forall i, j :: 0 <= i < j < |contributions| ==> contributions[i].capability != contributions[j].capability
    ensures k.project == identity.project ==> forall i :: 0 <= i < |contributions| && k.capability == contributions[i].capability ==>
      k in Filing(identity, contributions) && Filing(identity, contributions)[k] == Record(identity, contributions[i])
  {
    if contributions != [] {
      FilingAt(identity, contributions[..|contributions|-1], k);
    }
  }

  /** An identity is current exactly when the plugin has contributions in the project and all of them are of that instance. */
  lemma CurrentExactly(records: Records, project: Id, plugin: Id, x: InstanceIdentity)
    requires Filed(records)
    ensures IsCurrent(records, project, plugin, Some(x)) <==>
      && (exists k :: k in records && k.project == project && records[k].identity.plugin == plugin)
      && forall k :: k in records && k.project == project && records[k].identity.plugin == plugin ==> records[k].identity == x
  {
    forall k | k in records ensures Owns(records[k], project, plugin) <==> k.project == project && records[k].identity.plugin == plugin {
    }
  }
}
