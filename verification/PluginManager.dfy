/** The plugins of a project, with their audit trails and pending updates, changed in place (instance.rs). */
module PluginManager {
  import opened Basics
  import opened PluginLifecycle

  /** The newest `n` events. */
  function LastOf(history: History, n: nat): History {
    if |history| <= n then history else history[|history|-n..]
  }

  /** A bounded trail: past the bound, the oldest event makes room. */
  class AuditLog {
    var events: History
    /** Everything that was ever recorded. */
    ghost var history: History

    ghost predicate Valid()
      reads this
    {
      events == LastOf(history, MAX_AUDIT_EVENTS)
    }

    constructor ()
      ensures Valid() && history == []
    {
      events, history := [], [];
    }

    method Record(event: AuditEvent)
      requires Valid()
      modifies this
      ensures Valid() && history == old(history) + [event]
    {
      if |events| >= MAX_AUDIT_EVENTS {
        events := events[1..];
      }
      events := events + [event];
      history := history + [event];
    }
  }

  class PluginInstance {
    var digest: Id
    var generation: Option<nat>
    var host: Option<Id>
    var state: State
    const audit: AuditLog

    ghost function Shown(): Plugin
      reads this, audit
    {
      Plugin(digest, generation, host, state, audit.history)
    }

    constructor (digest: Id)
      ensures fresh(audit) && audit.Valid() && Shown() == Plugin(digest, None, None, Discovered, [AuditEvent(None, Discovered)])
    {
      this.digest, generation, host, state := digest, None, None, Discovered;
      audit := new AuditLog();
      new;
      audit.Record(AuditEvent(None, Discovered));
    }

    method Transition(to: State) returns (ok: bool)
      requires audit.Valid()
      modifies this`state, audit
      ensures audit.Valid() && (ok <==> AllowedTransition(old(state), to))
      ensures ok ==> Shown() == old(Shown()).(state := to, history := old(audit.history) + [AuditEvent(Some(old(state)), to)])
      ensures !ok ==> unchanged(this) && unchanged(audit)
    {
      if !AllowedTransition(state, to) {
        return false;
      }
      var from := state;
      state := to;
      audit.Record(AuditEvent(Some(from), to));
      return true;
    }

    /** The way up to `Active`. */
    method Activate() returns (ok: bool)
      requires audit.Valid()
      modifies this`state, audit
      ensures audit.Valid() && (ok <==> CanRise(old(state)))
      ensures ok ==> Shown() == old(Shown()).(state := Active, history := old(audit.history) + Rise(old(state)))
      ensures !ok ==> unchanged(this) && unchanged(audit)
    {
      if state == Discovered || state == Stopped {
        ok := Transition(Disabled);
      }
      ok := Transition(Resolving);
      if !ok {
        return false;
      }
      ok := Transition(Activating);
      ok := Transition(Active);
    }

    /** The way down to `Stopped`. */
    method Deactivate() returns (ok: bool)
      requires audit.Valid()
      modifies this`state, audit
      ensures audit.Valid() && (ok <==> old(state) == Active)
      ensures ok ==> Shown() == old(Shown()).(state := Stopped, history := old(audit.history) + FALL)
      ensures !ok ==> unchanged(this) && unchanged(audit)
    {
      ok := Transition(Quiescing);
      if !ok {
        return false;
      }
      ok := Transition(Disposing);
      ok := Transition(Stopped);
    }

    /** The replacement of the package of an active plugin, in place. */
    method Adopt(digest: Id, generation: Option<nat>, host: Id)
      requires audit.Valid() && state == Active
      modifies this, audit
      ensures audit.Valid()
      ensures Shown() == Plugin(digest, generation, Some(host), Active, old(audit.history) + [AuditEvent(Some(Active), Active)])
    {
      this.digest, this.generation, this.host := digest, generation, Some(host);
      audit.Record(AuditEvent(Some(Active), Active));
    }
  }

  class PluginManager {
    var instances: map<Key, PluginInstance>
    var accepted: map<Key, Id>
    var pending: map<Key, Id>

    ghost function Parts(): set<object>
      reads this`instances
    {
      (set key | key in instances :: instances[key] as object) + (set key | key in instances :: instances[key].audit as object)
    }

    ghost predicate Apart(j: Key, k: Key)
      requires j in instances && k in instances
      reads this`instances
    {
      j != k ==> instances[j] != instances[k] && instances[j].audit != instances[k].audit
    }

    ghost predicate Valid()
      reads this`instances, Parts()
    {
      && (forall key :: key in instances ==> instances[key].audit.Valid())
      && forall j, k {:trigger Apart(j, k)} :: j in instances && k in instances ==> Apart(j, k)
    }

    ghost function Plugins(): map<Key, Plugin>
      reads this`instances, Parts()
    {
      map key | key in instances :: instances[key].Shown()
    }

    ghost function Shown(): Registry
      reads this, Parts()
    {
      Registry(Plugins(), accepted, pending)
    }

    /** What a change to one instance leaves of the others. */
    twostate lemma OneChanged(key: Key)
      requires old(Valid()) && instances == old(instances) && key in instances && instances[key].audit.Valid()
      requires forall k :: k in instances && k != key ==> unchanged(instances[k]) && unchanged(instances[k].audit)
      ensures Valid() && Parts() == old(Parts())
      ensures Plugins() == old(Plugins())[key := instances[key].Shown()]
    {
      forall j, k | j in instances && k in instances ensures Apart(j, k) {
        assert old(Apart(j, k));
      }
    }

    /** One new instance beside the old ones, which are as they were. */
    twostate predicate Added(key: Key)
      reads this, Parts()
    {
      && key in instances && key !in old(instances) && instances == old(instances)[key := instances[key]]
      && fresh(instances[key]) && fresh(instances[key].audit) && instances[key].audit.Valid()
      && forall k :: k in old(instances) ==> instances[k] == old(instances[k]) && unchanged(instances[k]) && unchanged(instances[k].audit)
    }

    twostate lemma AddedIsValid(key: Key)
      requires old(Valid()) && Added(key)
      ensures Valid()
    {
      forall j, k | j in instances && k in instances ensures Apart(j, k) {
        if j in old(instances) && k in old(instances) {
          assert old(Apart(j, k));
        }
      }
    }

    twostate lemma AddedIsShown(key: Key)
      requires old(Valid()) && Added(key)
      ensures fresh(Parts() - old(Parts()))
      ensures Plugins() == old(Plugins())[key := instances[key].Shown()]
    {
    }

    constructor ()
      ensures Valid() && Shown() == Registry(map[], map[], map[]) && Parts() == {}
    {
      instances, accepted, pending := map[], map[], map[];
    }

    method Add(key: Key, digest: Id)
      requires Valid() && key !in instances
      modifies this`instances
      ensures Valid() && fresh(Parts() - old(Parts()))
      ensures Plugins() == old(Plugins())[key := Plugin(digest, None, None, Discovered, [AuditEvent(None, Discovered)])]
    {
      var instance := new PluginInstance(digest);
      instances := instances[key := instance];
      AddedIsValid(key);
      AddedIsShown(key);
    }

    method Discover(key: Key, digest: Id) returns (reply: Reply)
      requires Valid()
      modifies this
      ensures Valid() && fresh(Parts() - old(Parts()))
      ensures (Shown(), reply) == Apply(old(Shown()), key, Op.Discover(digest))
    {
      if key !in instances {
        Add(key, digest);
        return Ok(New);
      }
      if instances[key].digest == digest {
        return Ok(Unchanged);
      }
      if instances[key].state == Active {
        pending := pending[key := digest];
        return Ok(PendingUpdate);
      }
      return Err(DuplicateDiscovery);
    }

    method Enable(key: Key, host: Id) returns (reply: Reply)
      requires Valid()
      modifies this, Parts()
      ensures Valid() && Parts() == old(Parts())
      ensures (Shown(), reply) == Apply(old(Shown()), key, Op.Enable(host))
    {
      if key !in instances {
        return Err(UnknownPlugin);
      }
      var instance := instances[key];
      assert forall k :: k in instances && k != key ==> Apart(key, k);
      var next := Next(instance.generation);
      if next.None? {
        return Err(GenerationExhausted);
      }
      var ok := instance.Activate();
      if !ok {
        return Err(ForbiddenTransition);
      }
      instance.generation := next;
      instance.host := Some(host);
      accepted := accepted[key := instance.digest];
      OneChanged(key);
      return Ok(Done);
    }

    method Disable(key: Key) returns (reply: Reply)
      requires Valid()
      modifies this, Parts()
      ensures Valid() && Parts() == old(Parts())
      ensures (Shown(), reply) == Apply(old(Shown()), key, Op.Disable)
    {
      if key !in instances {
        return Err(UnknownPlugin);
      }
      var instance := instances[key];
      assert forall k :: k in instances && k != key ==> Apart(key, k);
      var ok := instance.Deactivate();
      if !ok {
        return Err(ForbiddenTransition);
      }
      instance.host := None;
      OneChanged(key);
      return Ok(Done);
    }

    method MarkCrashed(key: Key) returns (reply: Reply)
      requires Valid()
      modifies this, Parts()
      ensures Valid() && Parts() == old(Parts())
      ensures (Shown(), reply) == Apply(old(Shown()), key, Op.MarkCrashed)
    {
      if key !in instances {
        return Err(UnknownPlugin);
      }
      var instance := instances[key];
      assert forall k :: k in instances && k != key ==> Apart(key, k);
      assert AllowedTransition(instance.state, Crashed) <==> instance.state.Active?;
      var ok := instance.Transition(Crashed);
      if !ok {
        return Err(ForbiddenTransition);
      }
      instance.host := None;
      OneChanged(key);
      return Ok(Done);
    }

    /** The host of the replacement is a new one. */
    method Replace(key: Key, expectedOld: Id, candidate: Id, host: Id) returns (reply: Reply)
      requires Valid()
      modifies this, Parts()
      ensures Valid() && Parts() == old(Parts())
      ensures (Shown(), reply) == Apply(old(Shown()), key, Op.Replace(expectedOld, candidate, host))
    {
      if key !in accepted {
        return Err(UnknownPlugin);
      }
      if accepted[key] != expectedOld {
        return Err(StaleReplacement);
      }
      if key !in pending || pending[key] != candidate {
        return Err(CandidateNotPending);
      }
      if key !in instances {
        return Err(UnknownPlugin);
      }
      var instance := instances[key];
      assert forall k :: k in instances && k != key ==> Apart(key, k);
      if instance.state != Active {
        return Err(ForbiddenTransition);
      }
      if instance.generation.None? || Next(instance.generation).None? {
        return Err(GenerationExhausted);
      }
      instance.Adopt(candidate, Next(instance.generation), host);
      accepted := accepted[key := candidate];
      pending := pending - {key};
      OneChanged(key);
      return Ok(Done);
    }

    method RejectUpdate(key: Key) returns (reply: Reply)
      requires Valid()
      modifies this
      ensures Valid() && Parts() == old(Parts())
      ensures (Shown(), reply) == Apply(old(Shown()), key, Op.RejectUpdate)
    {
      var found := key in pending;
      pending := pending - {key};
      return Ok(Removed(found));
    }
  }
}
