/**
 * What passes tell: every status a pass stores is one of a few reports over the status that was there,
 * and each refusal is told exactly when its trouble is there.
 */
module Reports {
  import opened Prelude
  import opened Platform
  import opened Api
  import opened Cluster
  import opened Policy
  import opened QueryMeaning
  import opened TargetSecret
  import opened Protocol
  import opened Resolution
  import opened Grounds
  import Identifiers
  import Logins
  import Providers
  import Rotation
  import Schedules
  import Server

  /** What can keep a pass from its end. */
  datatype Trouble =
    | PolicyMissing
    | PolicyRefuses
    | ProviderMissing
    | TlsInvalid
    | SecretForeign
    | NothingDrawn
    | ServerAway
    | UserRefused
    | SecretRefused
    | UserStays
    | SecretStays

  function PolicyKey(p: Pass): NamespacedName
    requires p.GetPolicy?
  {
    NamespacedName(p.key.namespace, p.cred.spec.policyRef)
  }

  /** The Secret the pass is about to write is absent, or still of the version whose owner was checked. */
  predicate SecretWritable(w: World, p: Pass)
    requires p.WriteSecret?
  {
    var k := TargetKey(p.key, p.cred);
    if p.plan.existing.None? then k !in w.secrets else k in w.secrets && w.secrets[k].version == p.plan.existing.value.version
  }

  predicate HasPassword(w: World, k: NamespacedName) {
    k in w.secrets && "password" in w.secrets[k].data && w.secrets[k].data["password"] != ""
  }

  predicate Foreign(w: World, k: NamespacedName, name: string, uid: string) {
    k in w.secrets && forall i :: 0 <= i < |w.secrets[k].owners| ==>
      !(Claims(w.secrets[k].owners[i], name) && w.secrets[k].owners[i].uid == uid)
  }

  /** The trouble is there when the pass makes this call. */
  predicate Troubles(lib: Libraries, s: State, e: Event, x: Trouble) {
    var w, p := s.world, s.pass;
    match x
    case PolicyMissing => p.GetPolicy? && !p.cred.deleting && Answered(e) && PolicyKey(p) !in w.policies
    case PolicyRefuses =>
      p.GetPolicy? && !p.cred.deleting && Answered(e) && PolicyKey(p) in w.policies
      && !Grants(w.policies[PolicyKey(p)], p.cred.spec.level, p.cred.spec.database, RoleSet(p.cred.spec.roles))
    case ProviderMissing => p.GetProvider? && !p.cred.deleting && Answered(e) && p.policy.providerRef !in w.providers
    case TlsInvalid =>
      p.GetTls? && Providers.TlsNeeds(p.provider) != {} && !(Answered(e) && Providers.TlsInOrder(lib, w.secrets, p.provider))
    case SecretForeign => p.GetTarget? && Answered(e) && Foreign(w, TargetKey(p.key, p.cred), p.key.name, p.cred.uid)
    case NothingDrawn =>
      p.GetTarget? && Answered(e) && !Foreign(w, TargetKey(p.key, p.cred), p.key.name, p.cred.uid) && e.drawn.None?
      && !Rotation.KeepsPassword(
           ScheduleOf(p.cred.status),
           Rotation.Sighting(e.now, HasPassword(w, TargetKey(p.key, p.cred)), p.cred.annotations, p.cred.spec.period))
    case ServerAway => (p.Connect? || p.ConnectToRemove?) && !Answered(e)
    case UserRefused => p.Define? && !(Answered(e) && Logins.Taken(lib, p.cred, p.resolved, p.plan.password))
    case SecretRefused => p.WriteSecret? && !(Answered(e) && SecretWritable(w, p))
    case UserStays => p.RemoveUser? && !(Answered(e) && Nameable(SurrealTarget(p.cred, p.resolved)))
    case SecretStays => (p.DeleteSecret? || p.ForcedDelete?) && !Answered(e)
  }

  /** The conditions that tell it: Ready is False for this reason, and so is what it is about. */
  function Told(x: Trouble, generation: int): Conditions {
    match x
    case PolicyMissing => map["Ready" := Condition(False, "PolicyNotFound", generation)]
    case PolicyRefuses =>
      map["Ready" := Condition(False, "PolicyDenied", generation), "PolicyAccepted" := Condition(False, "PolicyDenied", generation)]
    case ProviderMissing => map["Ready" := Condition(False, "ProviderNotFound", generation)]
    case TlsInvalid => map["Ready" := Condition(False, "ProviderSecretInvalid", generation)]
    case SecretForeign =>
      map["Ready" := Condition(False, "SecretConflict", generation), "SecretReady" := Condition(False, "SecretConflict", generation)]
    case NothingDrawn => map["Ready" := Condition(False, "RotationFailed", generation)]
    case ServerAway => map["Ready" := Condition(False, "SurrealDBUnavailable", generation)]
    case UserRefused =>
      map["Ready" := Condition(False, "DefineUserFailed", generation), "UserDefined" := Condition(False, "DefineUserFailed", generation)]
    case SecretRefused =>
      map["Ready" := Condition(False, "SecretConflict", generation), "SecretReady" := Condition(False, "SecretConflict", generation)]
    case UserStays => map["Ready" := Condition(False, "RemoveUserFailed", generation)]
    case SecretStays =>
      map["Ready" := Condition(False, "SecretDeleteFailed", generation), "SecretReady" := Condition(False, "SecretDeleteFailed", generation)]
  }

  /** The same object, its generation observed and these conditions set; nothing else in the status differs. */
  predicate Tells(b: Credential, d: Credential, marks: Conditions) {
    d == b.(status := b.status.(observedGeneration := b.generation, conditions := b.status.conditions + marks))
  }

  /** Stages of a live pass after its target is located: the generation is already observed. */
  predicate Observing(pass: Pass) {
    pass.GetTarget? || pass.Connect? || pass.Define? || pass.WriteSecret? ==> pass.cred.status.observedGeneration == pass.cred.generation
  }

  // ----- each refusal is told exactly when its trouble is there -----

  /** What a call is to show: no refusal without its trouble, and the trouble told. */
  predicate TellsTroubles(lib: Libraries, s: State, e: Event, x: Trouble) {
    var q := Next(lib, s, e).pass;
    Troubles(lib, s, e, x) ==> q.WriteStatus? && q.key == s.pass.key && Tells(s.pass.cred, q.cred, Told(x, s.pass.cred.generation))
  }

  ghost predicate RefusesForTrouble(lib: Libraries, s: State, e: Event) {
    Next(lib, s, e).pass.WriteStatus? ==> exists x :: Troubles(lib, s, e, x)
  }

  lemma OneMark(cs: Conditions, kind: string, c: Condition)
    ensures cs[kind := c] == cs + map[kind := c]
  {
  }

  lemma TwoMarks(cs: Conditions, kind: string, c: Condition, other: string, d: Condition)
    requires kind != other
    ensures cs[kind := c][other := d] == cs + map[kind := c, other := d]
  {
  }

  lemma PolicyTroubles(lib: Libraries, s: State, e: Event, x: Trouble)
    requires s.pass.GetPolicy? && e.Proceed?
    ensures TellsTroubles(lib, s, e, x) && RefusesForTrouble(lib, s, e)
  {
    var c := s.pass.cred;
    OneMark(c.status.conditions, "Ready", Condition(False, "PolicyNotFound", c.generation));
    TwoMarks(c.status.conditions, "Ready", Condition(False, "PolicyDenied", c.generation),
             "PolicyAccepted", Condition(False, "PolicyDenied", c.generation));
    if PolicyKey(s.pass) in s.world.policies {
      AllowedIffGranted(s.world.policies[PolicyKey(s.pass)], RequestOf(c));
      assert Next(lib, s, e).pass.WriteStatus? ==> Troubles(lib, s, e, PolicyRefuses);
    } else {
      assert Next(lib, s, e).pass.WriteStatus? ==> Troubles(lib, s, e, PolicyMissing);
    }
  }

  lemma ProviderTroubles(lib: Libraries, s: State, e: Event, x: Trouble)
    requires (s.pass.GetProvider? || s.pass.GetRoot?) && e.Proceed?
    ensures TellsTroubles(lib, s, e, x) && RefusesForTrouble(lib, s, e)
  {
    var c := s.pass.cred;
    OneMark(c.status.conditions, "Ready", Condition(False, "ProviderNotFound", c.generation));
    assert Next(lib, s, e).pass.WriteStatus? ==> Troubles(lib, s, e, ProviderMissing);
  }

  lemma TlsTroubles(lib: Libraries, s: State, e: Event, x: Trouble)
    requires s.pass.GetTls? && e.Proceed?
    ensures TellsTroubles(lib, s, e, x) && RefusesForTrouble(lib, s, e)
  {
    var c := s.pass.cred;
    Providers.TlsIff(lib, s.world.secrets, s.pass.provider);
    NoTlsToRead(lib, s.world.secrets, s.pass.provider);
    OneMark(c.status.conditions, "Ready", Condition(False, "ProviderSecretInvalid", c.generation));
    assert Next(lib, s, e).pass.WriteStatus? ==> Troubles(lib, s, e, TlsInvalid);
  }

  lemma TargetTroubles(lib: Libraries, s: State, e: Event, x: Trouble)
    requires s.pass.GetTarget? && e.Proceed? && Observing(s.pass)
    ensures TellsTroubles(lib, s, e, x) && RefusesForTrouble(lib, s, e)
  {
    var w, p, c := s.world, s.pass, s.pass.cred;
    var k := TargetKey(p.key, c);
    var seen := SeenBy(c, Lookup(w.secrets, k), e.now);
    assert seen == Rotation.Sighting(e.now, HasPassword(w, k), c.annotations, c.spec.period);
    Rotation.KeepsPasswordIff(ScheduleOf(c.status), seen);
    TwoMarks(c.status.conditions, "Ready", Condition(False, "SecretConflict", c.generation),
             "SecretReady", Condition(False, "SecretConflict", c.generation));
    OneMark(c.status.conditions, "Ready", Condition(False, "RotationFailed", c.generation));
    if Next(lib, s, e).pass.WriteStatus? {
      assert Troubles(lib, s, e, if Foreign(w, k, p.key.name, c.uid) then SecretForeign else NothingDrawn);
    }
  }

  lemma ConnectionTroubles(lib: Libraries, s: State, e: Event, x: Trouble)
    requires (s.pass.Connect? || s.pass.ConnectToRemove?) && e.Proceed? && Observing(s.pass)
    ensures TellsTroubles(lib, s, e, x) && RefusesForTrouble(lib, s, e)
  {
    var c := s.pass.cred;
    OneMark(c.status.conditions, "Ready", Condition(False, "SurrealDBUnavailable", c.generation));
    assert Next(lib, s, e).pass.WriteStatus? ==> Troubles(lib, s, e, ServerAway);
  }

  /** The caller sees a definition succeed exactly when the call is answered and the server takes the text. */
  lemma DefinitionSucceedsIff(lib: Libraries, w: World, c: Credential, r: Resolved, password: string, e: Event)
    requires e.Proceed? && Identifiers.EscapeIdent(r.username) == Ok(r.username)
    ensures Answer(w, AskToDefine(lib, w, UserOf(c, r), password, c.spec.roles), e.fault).1
            <==> Answered(e) && Logins.Taken(lib, c, r, password)
  {
    Server.DefinitionEffect(lib, r.provider.endpoint, w.users, SurrealTarget(c, r), r.username, password, c.spec.roles);
  }

  lemma DefinitionTroubles(lib: Libraries, s: State, e: Event, x: Trouble)
    requires s.pass.Define? && e.Proceed? && Observing(s.pass) && WellResolved(s.pass)
    ensures TellsTroubles(lib, s, e, x) && RefusesForTrouble(lib, s, e)
  {
    var p := s.pass;
    DefinitionSucceedsIff(lib, s.world, p.cred, p.resolved, p.plan.password, e);
    var ok := Answer(s.world, AskToDefine(lib, s.world, UserOf(p.cred, p.resolved), p.plan.password, p.cred.spec.roles), e.fault).1;
    UndefinedIsTold(p, ok);
    DefinitionLeadsTo(lib, s, e, ok);
    assert Troubles(lib, s, e, UserRefused) <==> !ok;
  }

  lemma DefinitionLeadsTo(lib: Libraries, s: State, e: Event, ok: bool)
    requires s.pass.Define? && e.Proceed?
    requires ok == Answer(s.world, AskToDefine(lib, s.world, UserOf(s.pass.cred, s.pass.resolved), s.pass.plan.password,
                                               s.pass.cred.spec.roles), e.fault).1
    ensures Next(lib, s, e).pass == AfterDefine(s.pass.key, s.pass.cred, s.pass.resolved, s.pass.plan, ok)
  {
  }

  lemma UndefinedIsTold(p: Pass, ok: bool)
    requires p.Define? && Observing(p)
    ensures var q := AfterDefine(p.key, p.cred, p.resolved, p.plan, ok);
            && (q.WriteStatus? <==> !ok)
            && (!ok ==> q.key == p.key && Tells(p.cred, q.cred, Told(UserRefused, p.cred.generation)))
  {
    TwoMarks(p.cred.status.conditions, "Ready", Condition(False, "DefineUserFailed", p.cred.generation),
             "UserDefined", Condition(False, "DefineUserFailed", p.cred.generation));
  }

  lemma SecretWriteSucceedsIff(lib: Libraries, w: World, p: Pass, e: Event)
    requires p.WriteSecret? && e.Proceed?
    ensures Attempt(w, SecretWrite(lib, w, p.key, p.cred, p.resolved, p.plan), e.fault).1 <==> Answered(e) && SecretWritable(w, p)
  {
  }

  lemma SecretTroubles(lib: Libraries, s: State, e: Event, x: Trouble)
    requires s.pass.WriteSecret? && e.Proceed? && Observing(s.pass)
    ensures TellsTroubles(lib, s, e, x) && RefusesForTrouble(lib, s, e)
  {
    var p := s.pass;
    SecretWriteSucceedsIff(lib, s.world, p, e);
    var ok := Attempt(s.world, SecretWrite(lib, s.world, p.key, p.cred, p.resolved, p.plan), e.fault).1;
    UnwrittenIsTold(p, ok);
    assert Next(lib, s, e).pass == AfterWriteSecret(p.key, p.cred, p.resolved, p.plan, ok);
    assert Troubles(lib, s, e, SecretRefused) <==> !ok;
  }

  lemma UnwrittenIsTold(p: Pass, ok: bool)
    requires p.WriteSecret? && Observing(p)
    ensures var q := AfterWriteSecret(p.key, p.cred, p.resolved, p.plan, ok);
            && (q.WriteStatus? <==> !ok)
            && (!ok ==> q.key == p.key && Tells(p.cred, q.cred, Told(SecretRefused, p.cred.generation)))
  {
    TwoMarks(p.cred.status.conditions, "Ready", Condition(False, "SecretConflict", p.cred.generation),
             "SecretReady", Condition(False, "SecretConflict", p.cred.generation));
  }

  lemma RemovalTroubles(lib: Libraries, s: State, e: Event, x: Trouble)
    requires s.pass.RemoveUser? && e.Proceed? && WellResolved(s.pass)
    ensures TellsTroubles(lib, s, e, x) && RefusesForTrouble(lib, s, e)
  {
    var p, c := s.pass, s.pass.cred;
    Server.RemovalEffect(p.resolved.provider.endpoint, s.world.users, SurrealTarget(c, p.resolved), p.resolved.username);
    OneMark(c.status.conditions, "Ready", Condition(False, "RemoveUserFailed", c.generation));
    assert Next(lib, s, e).pass.WriteStatus? ==> Troubles(lib, s, e, UserStays);
  }

  lemma SecretDeleteTroubles(lib: Libraries, s: State, e: Event, x: Trouble)
    requires (s.pass.DeleteSecret? || s.pass.ForcedDelete?) && e.Proceed?
    ensures TellsTroubles(lib, s, e, x) && RefusesForTrouble(lib, s, e)
  {
    var c := s.pass.cred;
    TwoMarks(c.status.conditions, "Ready", Condition(False, "SecretDeleteFailed", c.generation),
             "SecretReady", Condition(False, "SecretDeleteFailed", c.generation));
    assert Next(lib, s, e).pass.WriteStatus? ==> Troubles(lib, s, e, SecretStays);
  }

  lemma OtherCallsRefuseNothing(lib: Libraries, s: State, e: Event, x: Trouble)
    requires e.Proceed?
    requires s.pass.Idle? || s.pass.GetCredential? || s.pass.AddFinalizer? || s.pass.PersistReady? || s.pass.GetLatest? || s.pass.DropFinalizer?
    ensures TellsTroubles(lib, s, e, x) && RefusesForTrouble(lib, s, e)
  {
  }

  /**
   * Whatever the call and its answer: the pass turns to writing a refusal exactly when one of the troubles
   * is there, and what it is about to write tells that trouble, with the object's generation, and leaves
   * the rest of the status as it is.
   */
  lemma TroublesAreTold(lib: Libraries, s: State, e: Event, x: Trouble)
    requires e.Proceed? && !s.pass.WriteStatus? && Observing(s.pass) && WellResolved(s.pass)
    ensures TellsTroubles(lib, s, e, x) && RefusesForTrouble(lib, s, e)
  {
    if s.pass.GetPolicy? {
      PolicyTroubles(lib, s, e, x);
    } else if s.pass.GetProvider? || s.pass.GetRoot? {
      ProviderTroubles(lib, s, e, x);
    } else if s.pass.GetTls? {
      TlsTroubles(lib, s, e, x);
    } else if s.pass.GetTarget? {
      TargetTroubles(lib, s, e, x);
    } else if s.pass.Connect? || s.pass.ConnectToRemove? {
      ConnectionTroubles(lib, s, e, x);
    } else if s.pass.Define? {
      DefinitionTroubles(lib, s, e, x);
    } else if s.pass.WriteSecret? {
      SecretTroubles(lib, s, e, x);
    } else if s.pass.RemoveUser? {
      RemovalTroubles(lib, s, e, x);
    } else if s.pass.DeleteSecret? || s.pass.ForcedDelete? {
      SecretDeleteTroubles(lib, s, e, x);
    } else {
      OtherCallsRefuseNothing(lib, s, e, x);
    }
  }

  /** A read without an answer ends the pass and changes nothing, unless it is of TLS material. */
  lemma UnansweredReadEnds(lib: Libraries, s: State, e: Event)
    requires e.Proceed? && !Answered(e)
    requires s.pass.GetCredential? || s.pass.GetPolicy? || s.pass.GetProvider? || s.pass.GetRoot? || s.pass.GetTarget? || s.pass.GetLatest?
    ensures Next(lib, s, e) == s.(pass := Idle)
  {
  }

  /** What a pass plans when it goes on: the decision on what it found, and the password that goes with it. */
  lemma PlanTells(lib: Libraries, s: State, e: Event)
    requires s.pass.GetTarget? && e.Proceed? && Next(lib, s, e).pass.Connect?
    ensures var w, p, q := s.world, s.pass, Next(lib, s, e).pass;
            var k, c := NamespacedName(p.key.namespace, p.cred.spec.targetSecret), p.cred;
            var seen := Rotation.Sighting(e.now, HasPassword(w, k), c.annotations, c.spec.period);
            && Answered(e) && !Foreign(w, k, p.key.name, c.uid)
            && q.key == p.key && q.cred == c && q.resolved == p.resolved
            && q.plan.existing == Lookup(w.secrets, k) && q.plan.seen == seen
            && q.plan.decision == Rotation.DecideOn(ScheduleOf(c.status), seen)
            && (Rotation.KeepsPassword(ScheduleOf(c.status), seen) ==>
                  HasPassword(w, k) && q.plan.password == w.secrets[k].data["password"])
            && (!Rotation.KeepsPassword(ScheduleOf(c.status), seen) ==> e.drawn == Some(q.plan.password))
  {
    var seen := SeenBy(s.pass.cred, Lookup(s.world.secrets, TargetKey(s.pass.key, s.pass.cred)), e.now);
    Rotation.KeepsPasswordIff(ScheduleOf(s.pass.cred.status), seen);
  }

  /** A live credential whose provider's Secrets are refused is written twice, the second time as it is stored. */
  lemma RefusedProviderIsWrittenAgain(lib: Libraries, s: State, a: Event, b: Event, c: Event)
    requires Troubles(lib, s, a, TlsInvalid) && !s.pass.cred.deleting && a.Proceed? && Answered(b) && c.Proceed?
    requires IsFresh(s.world, s.pass.key, s.pass.cred) && !s.world.credentials[s.pass.key].deleting
    ensures var key, u := s.pass.key, Next(lib, Next(lib, s, a), b);
            && key in u.world.credentials
            && u.pass == WriteStatus(key, u.world.credentials[key], Stop)
            && (Rotation.Stored(ScheduleOf(s.pass.cred.status)) ==> Next(lib, u, c).world == u.world)
  {
    TlsTroubles(lib, s, a, TlsInvalid);
    var t, key := Next(lib, s, a), s.pass.key;
    assert t.world == s.world && t.pass.followUp.Again?;
    var attempt := TryUpdateStatus(t.world, key, t.pass.cred);
    StatusWriteEffect(t.world, key, t.pass.cred, attempt.value);
    var u := Next(lib, t, b);
    assert u.world == attempt.value;
    if Rotation.Stored(ScheduleOf(s.pass.cred.status)) {
      Schedules.PersistedKeepsStored(ScheduleOf(s.pass.cred.status));
      WritingBackChangesNothing(u.world, key, c.fault);
    }
  }

  lemma WritingBackChangesNothing(w: World, key: NamespacedName, fault: Fault)
    requires key in w.credentials && !w.credentials[key].deleting && Rotation.Stored(ScheduleOf(w.credentials[key].status))
    ensures Attempt(w, TryUpdateStatus(w, key, w.credentials[key]), fault).0 == w
  {
    Schedules.PersistedKeepsStored(ScheduleOf(w.credentials[key].status));
    assert StoredStatus(w.credentials[key].status) == w.credentials[key].status;
  }
}
