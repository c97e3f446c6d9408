/**
 * The age of the password a Secret holds, over whole runs of the protocol: which draw it comes from,
 * and when a completed pass bounds its age by the period.
 */
module Ages {
  import opened Prelude
  import opened Platform
  import opened Api
  import opened Cluster
  import opened TargetSecret
  import opened Protocol
  import Ownership
  import Rotation
  import Schedules

  /** A password, and the clock reading of the pass that drew it. */
  datatype Birth = Birth(password: string, at: int)

  /** The call writes the Secret `k`, and the write takes effect. */
  predicate Writes(lib: Libraries, s: State, e: Event, k: NamespacedName) {
    && s.pass.WriteSecret? && e.Proceed? && !e.fault.Lost? && TargetKey(s.pass.key, s.pass.cred) == k
    && SecretWrite(lib, s.world, s.pass.key, s.pass.cred, s.pass.resolved, s.pass.plan).Some?
  }

  /** Somebody else writes or drops the Secret. */
  predicate Meddles(e: Event, k: NamespacedName) {
    e.Outside? && (e.edit.PutSecret? || e.edit.DropSecret?) && e.edit.key == k
  }

  /** The draw behind the Secret's password after one more event. */
  function BirthAfter(lib: Libraries, s: State, e: Event, k: NamespacedName, b: Option<Birth>): Option<Birth> {
    if Meddles(e, k) then None
    else if Writes(lib, s, e, k) && !s.pass.plan.decision.action.Reuse? then Some(Birth(s.pass.plan.password, s.pass.plan.seen.now))
    else if k !in Next(lib, s, e).world.secrets then None
    else b
  }

  /** The draw behind the Secret's password, if a pass of the run made it and nobody else wrote it since. */
  function BirthIn(lib: Libraries, s: State, es: seq<Event>, k: NamespacedName): Option<Birth>
    decreases |es|
  {
    if es == [] then None
    else BirthAfter(lib, Run(lib, s, es[..|es| - 1]), es[|es| - 1], k, BirthIn(lib, s, es[..|es| - 1], k))
  }

  // ----- the clock -----

  function Clock(start: int, es: seq<Event>): int {
    if es == [] then start
    else if es[|es| - 1].Proceed? then es[|es| - 1].now
    else Clock(start, es[..|es| - 1])
  }

  /** The clock never goes back. */
  predicate Forward(start: int, es: seq<Event>)
    decreases |es|
  {
    es == []
    || (Forward(start, es[..|es| - 1])
        && (es[|es| - 1].Proceed? ==> Clock(start, es[..|es| - 1]) <= es[|es| - 1].now))
  }

  // ----- what a run keeps -----

  function LastOf(w: World, key: NamespacedName): Option<int> {
    if key in w.credentials then w.credentials[key].status.lastRotation else None
  }

  predicate NotAfter(last: Option<int>, at: int) {
    last.Some? ==> last.value <= at
  }

  predicate HoldsPassword(w: World, k: NamespacedName, password: string) {
    k in w.secrets && "password" in w.secrets[k].data && w.secrets[k].data["password"] == password
  }

  /** The recorded rotation of `key` is not later than the draw of the password in `k`. */
  predicate Aged(w: World, key: NamespacedName, k: NamespacedName, b: Option<Birth>, clock: int) {
    && NotAfter(LastOf(w, key), clock)
    && (b.Some? ==> b.value.at <= clock && NotAfter(LastOf(w, key), b.value.at) && HoldsPassword(w, k, b.value.password))
  }

  predicate PlanAged(w: World, key: NamespacedName, p: Plan, clock: int) {
    && p.seen.now <= clock && NotAfter(LastOf(w, key), p.seen.now)
    && (p.decision.action.Reuse? ==> p.existing.Some? && ExistingPassword(p.existing) == Some(p.password))
  }

  predicate PassAged(w: World, pass: Pass, key: NamespacedName, b: Option<Birth>, clock: int) {
    && (HoldsPlan(pass) ==> PlanAged(w, key, pass.plan, clock))
    && (pass.PersistReady? ==>
          && pass.plan.seen.now <= clock
          && (pass.key == key && !pass.plan.decision.action.Reuse? && b.Some? ==> b.value.at == pass.plan.seen.now))
  }

  /** The object in memory, whatever it is called. */
  function InHand(pass: Pass): Option<Credential> {
    match pass
    case Idle => None
    case GetCredential(_) => None
    case GetLatest(_) => None
    case DropFinalizer(_, latest) => Some(latest)
    case _ => Some(pass.cred)
  }

  /** The credential names this Secret, in the store and in memory. */
  predicate Points(w: World, pass: Pass, key: NamespacedName, k: NamespacedName) {
    && (key in w.credentials ==> TargetKey(key, w.credentials[key]) == k)
    && (InHand(pass).Some? && pass.key == key ==> TargetKey(key, InHand(pass).value) == k)
  }

  /** Nobody points the credential at another Secret. */
  predicate KeepsTarget(key: NamespacedName, k: NamespacedName, e: Event) {
    e.Outside? && (e.edit.CreateCredential? || e.edit.EditCredential?) && e.edit.key == key ==>
      NamespacedName(key.namespace, e.edit.spec.targetSecret) == k
  }

  // ----- the credential keeps naming its Secret -----

  /** What a pass takes in hand it had before, or has just read. */
  predicate TakesInHand(w: World, before: Pass, after: Pass) {
    InHand(after).Some? ==>
      && !before.Idle? && after.key == before.key
      && ((InHand(before).Some? && InHand(after).value.spec == InHand(before).value.spec)
          || (after.key in w.credentials && InHand(after).value.spec == w.credentials[after.key].spec))
  }

  lemma ReadTakesInHand(lib: Libraries, s: State, e: Event)
    requires e.Proceed? && (s.pass.GetCredential? || s.pass.GetLatest? || s.pass.GetPolicy?)
    ensures var t := Next(lib, s, e); TakesInHand(t.world, s.pass, t.pass) && t.world == s.world
  {
  }

  lemma ReferenceTakesInHand(lib: Libraries, s: State, e: Event)
    requires e.Proceed? && (s.pass.GetProvider? || s.pass.GetRoot? || s.pass.GetTls?)
    ensures var t := Next(lib, s, e); TakesInHand(t.world, s.pass, t.pass) && t.world == s.world
  {
  }

  lemma TargetTakesInHand(lib: Libraries, s: State, e: Event)
    requires e.Proceed? && (s.pass.GetTarget? || s.pass.Connect? || s.pass.ConnectToRemove?)
    ensures var t := Next(lib, s, e); TakesInHand(t.world, s.pass, t.pass) && t.world == s.world
  {
  }

  lemma UserTakesInHand(lib: Libraries, s: State, e: Event)
    requires e.Proceed? && (s.pass.Define? || s.pass.RemoveUser?)
    ensures var t := Next(lib, s, e);
            TakesInHand(t.world, s.pass, t.pass) && t.world.credentials == s.world.credentials && t.world.secrets == s.world.secrets
  {
  }

  lemma SecretTakesInHand(lib: Libraries, s: State, e: Event)
    requires e.Proceed? && Schedules.Sound(s) && (s.pass.WriteSecret? || s.pass.DeleteSecret? || s.pass.ForcedDelete?)
    ensures var t := Next(lib, s, e); TakesInHand(t.world, s.pass, t.pass) && t.world.credentials == s.world.credentials
  {
    if s.pass.WriteSecret? {
      Schedules.SecretWriteTracks(lib, s, e);
      WrittenInHand(lib, s, e);
    } else {
      Schedules.SecretDeleteTracks(lib, s, e);
      DeletedInHand(lib, s, e);
    }
  }

  lemma WrittenInHand(lib: Libraries, s: State, e: Event)
    requires e.Proceed? && s.pass.WriteSecret?
    ensures var after := Next(lib, s, e).pass;
            && (after.PersistReady? || after.WriteStatus?) && after.key == s.pass.key && after.cred.spec == s.pass.cred.spec
            && (after.PersistReady? ==> after.plan == s.pass.plan && Writes(lib, s, e, TargetKey(s.pass.key, s.pass.cred)))
  {
  }

  lemma DeletedInHand(lib: Libraries, s: State, e: Event)
    requires e.Proceed? && (s.pass.DeleteSecret? || s.pass.ForcedDelete?)
    ensures var after := Next(lib, s, e).pass;
            after.GetLatest? || (after.WriteStatus? && after.key == s.pass.key && after.cred.spec == s.pass.cred.spec)
  {
  }

  lemma TakingKeepsPoints(w: World, v: World, before: Pass, after: Pass, key: NamespacedName, k: NamespacedName)
    requires Points(w, before, key, k) && TakesInHand(v, before, after)
    requires key in v.credentials ==> TargetKey(key, v.credentials[key]) == k
    ensures Points(v, after, key, k)
  {
  }

  /** Writes of credentials put what is in hand, or what was there, in the store. */
  lemma StatusKeepsPoints(lib: Libraries, s: State, e: Event, key: NamespacedName, k: NamespacedName)
    requires e.Proceed? && (s.pass.WriteStatus? || s.pass.PersistReady?) && Points(s.world, s.pass, key, k)
    ensures var t := Next(lib, s, e); Points(t.world, t.pass, key, k) && t.world.secrets == s.world.secrets
  {
    var w, p := s.world, s.pass;
    if TryUpdateStatus(w, p.key, p.cred).Some? {
      var v := TryUpdateStatus(w, p.key, p.cred).value;
      StatusWriteEffect(w, p.key, p.cred, v);
      assert key != p.key ==> Lookup(v.credentials, key) == Lookup(w.credentials, key);
    }
  }

  lemma ObjectKeepsPoints(lib: Libraries, s: State, e: Event, key: NamespacedName, k: NamespacedName)
    requires e.Proceed? && (s.pass.AddFinalizer? || s.pass.DropFinalizer?) && Points(s.world, s.pass, key, k)
    ensures var t := Next(lib, s, e); Points(t.world, t.pass, key, k) && t.world.secrets == s.world.secrets && t.pass.Idle?
  {
    var w, p, c := s.world, s.pass, InHand(s.pass).value;
    if TryUpdateObject(w, p.key, c).Some? {
      var v := TryUpdateObject(w, p.key, c).value;
      ObjectWriteEffect(w, p.key, c, v);
      assert key != p.key ==> Lookup(v.credentials, key) == Lookup(w.credentials, key);
    }
  }

  lemma CallKeepsPoints(lib: Libraries, s: State, e: Event, key: NamespacedName, k: NamespacedName)
    requires e.Proceed? && Schedules.Sound(s) && Points(s.world, s.pass, key, k)
    ensures var t := Next(lib, s, e); Points(t.world, t.pass, key, k)
  {
    var t := Next(lib, s, e);
    if s.pass.Idle? {
    } else if s.pass.WriteStatus? || s.pass.PersistReady? {
      StatusKeepsPoints(lib, s, e, key, k);
    } else if s.pass.AddFinalizer? || s.pass.DropFinalizer? {
      ObjectKeepsPoints(lib, s, e, key, k);
    } else {
      if s.pass.GetCredential? || s.pass.GetLatest? || s.pass.GetPolicy? {
        ReadTakesInHand(lib, s, e);
      } else if s.pass.GetProvider? || s.pass.GetRoot? || s.pass.GetTls? {
        ReferenceTakesInHand(lib, s, e);
      } else if s.pass.GetTarget? || s.pass.Connect? || s.pass.ConnectToRemove? {
        TargetTakesInHand(lib, s, e);
      } else if s.pass.Define? || s.pass.RemoveUser? {
        UserTakesInHand(lib, s, e);
      } else {
        SecretTakesInHand(lib, s, e);
      }
      TakingKeepsPoints(s.world, t.world, s.pass, t.pass, key, k);
    }
  }

  lemma UpdateKeepsPoints(w: World, e: Edit, key: NamespacedName, k: NamespacedName)
    requires e.EditCredential? && KeepsTarget(key, k, Outside(e)) && Points(w, Idle, key, k)
    ensures Points(Apply(w, e), Idle, key, k)
  {
    if e.key in w.credentials {
      var d := Edited(w.credentials[e.key], e.finalizers, e.annotations, e.spec);
      assert Apply(w, e) == StoreCredential(w, e.key, d);
      StoreKeepsSpec(w, e.key, d);
    }
  }

  lemma StoreKeepsSpec(w: World, k: NamespacedName, c: Credential)
    requires k in w.credentials
    ensures var v := StoreCredential(w, k, c);
            && (k in v.credentials ==> v.credentials[k].spec == c.spec)
            && (forall j :: j != k ==> Lookup(v.credentials, j) == Lookup(w.credentials, j))
  {
  }

  lemma EditKeepsPoints(w: World, e: Edit, pass: Pass, key: NamespacedName, k: NamespacedName)
    requires KeepsTarget(key, k, Outside(e)) && Points(w, pass, key, k)
    ensures Points(Apply(w, e), pass, key, k)
  {
    if e.EditCredential? {
      UpdateKeepsPoints(w, e, key, k);
    } else if e.DeleteCredential? && e.key in w.credentials {
      StoreKeepsSpec(w, e.key, w.credentials[e.key].(deleting := true));
    }
  }

  // ----- ages, call by call -----

  /** The recorded rotation stays, or goes with its credential, or is what a completed pass records. */
  predicate LastFollows(s: State, t: State, e: Event, key: NamespacedName) {
    var before, after := LastOf(s.world, key), LastOf(t.world, key);
    after == None || after == before
    || (Schedules.Completes(s, key, e)
        && after == Rotation.Complete(ScheduleOf(s.world.credentials[key].status), s.pass.plan.seen).last)
  }

  lemma CallAddsNoCredential(lib: Libraries, s: State, e: Event, key: NamespacedName)
    requires e.Proceed? && (s.pass.WriteStatus? || s.pass.PersistReady? || s.pass.AddFinalizer? || s.pass.DropFinalizer?)
    ensures key in Next(lib, s, e).world.credentials ==> key in s.world.credentials
  {
    if s.pass.WriteStatus? || s.pass.PersistReady? {
      StatusAddsNoCredential(s.world, s.pass.key, s.pass.cred, e.fault, key);
    } else {
      ObjectAddsNoCredential(s.world, s.pass.key, InHand(s.pass).value, e.fault, key);
    }
  }

  lemma StatusAddsNoCredential(w: World, k: NamespacedName, c: Credential, fault: Fault, key: NamespacedName)
    ensures key in Attempt(w, TryUpdateStatus(w, k, c), fault).0.credentials ==> key in w.credentials
  {
  }

  lemma ObjectAddsNoCredential(w: World, k: NamespacedName, c: Credential, fault: Fault, key: NamespacedName)
    ensures key in Attempt(w, TryUpdateObject(w, k, c), fault).0.credentials ==> key in w.credentials
  {
  }

  lemma WriteFollowsLast(lib: Libraries, s: State, e: Event, key: NamespacedName)
    requires Schedules.Sound(s) && e.Proceed?
    requires s.pass.WriteStatus? || s.pass.PersistReady? || s.pass.AddFinalizer? || s.pass.DropFinalizer?
    ensures LastFollows(s, Next(lib, s, e), e, key)
  {
    Schedules.CallFollows(lib, s, e);
    CallAddsNoCredential(lib, s, e, key);
  }

  /** A call that leaves the Secret and the recorded rotation alone, and makes no new plan, keeps the ages. */
  lemma QuietCallAges(lib: Libraries, s: State, e: Event, key: NamespacedName, k: NamespacedName, b: Option<Birth>, clock: int)
    requires Aged(s.world, key, k, b, clock) && PassAged(s.world, s.pass, key, b, clock)
    requires e.Proceed? && clock <= e.now && !s.pass.WriteSecret?
    requires var t := Next(lib, s, e);
             && (LastOf(t.world, key) == None || LastOf(t.world, key) == LastOf(s.world, key))
             && (Lookup(t.world.secrets, k) == Lookup(s.world.secrets, k) || k !in t.world.secrets)
             && (HoldsPlan(t.pass) ==> HoldsPlan(s.pass) && t.pass.plan == s.pass.plan)
             && !t.pass.PersistReady?
    ensures var t, after := Next(lib, s, e), BirthAfter(lib, s, e, k, b);
            Aged(t.world, key, k, after, e.now) && PassAged(t.world, t.pass, key, after, e.now)
  {
  }

  lemma TargetCallAges(lib: Libraries, s: State, e: Event, key: NamespacedName, k: NamespacedName, b: Option<Birth>, clock: int)
    requires Aged(s.world, key, k, b, clock) && e.Proceed? && clock <= e.now && s.pass.GetTarget?
    ensures var t, after := Next(lib, s, e), BirthAfter(lib, s, e, k, b);
            Aged(t.world, key, k, after, e.now) && PassAged(t.world, t.pass, key, after, e.now)
  {
  }

  /** Writing the Secret: a draw is now behind it, or the password that was there. */
  lemma SecretCallAges(lib: Libraries, s: State, e: Event, key: NamespacedName, k: NamespacedName, b: Option<Birth>, clock: int)
    requires Schedules.Sound(s) && Ownership.Careful(s) && Points(s.world, s.pass, key, k)
    requires Aged(s.world, key, k, b, clock) && PassAged(s.world, s.pass, key, b, clock)
    requires e.Proceed? && clock <= e.now && s.pass.WriteSecret?
    ensures var t, after := Next(lib, s, e), BirthAfter(lib, s, e, k, b);
            Aged(t.world, key, k, after, e.now) && PassAged(t.world, t.pass, key, after, e.now)
  {
    var t := Next(lib, s, e);
    Schedules.SecretWriteTracks(lib, s, e);
    WrittenInHand(lib, s, e);
    SecretWriteLeaves(lib, s, e, k);
  }

  /** What is in `k` after the Secret write: the planned password if it was written, else what was there. */
  lemma SecretWriteLeaves(lib: Libraries, s: State, e: Event, k: NamespacedName)
    requires e.Proceed? && s.pass.WriteSecret? && Ownership.Careful(s)
    ensures var v := Next(lib, s, e).world;
            && (Writes(lib, s, e, k) ==> HoldsPassword(v, k, s.pass.plan.password))
            && (!Writes(lib, s, e, k) ==> Lookup(v.secrets, k) == Lookup(s.world.secrets, k))
            && (Writes(lib, s, e, k) && s.pass.plan.existing.Some? ==>
                  k in s.world.secrets && s.world.secrets[k] == s.pass.plan.existing.value)
  {
    var p := s.pass;
    var target, desired := TargetKey(p.key, p.cred), DesiredSecret(lib, p.key, p.cred, p.resolved, p.plan.password);
    if SecretWrite(lib, s.world, p.key, p.cred, p.resolved, p.plan).Some? {
      StoredPassword(s.world, target, if p.plan.existing.None? then desired else desired.(version := p.plan.existing.value.version), k);
    }
  }

  lemma StoredPassword(w: World, target: NamespacedName, secret: Secret, k: NamespacedName)
    ensures var v := StoreSecret(w, target, secret);
            && (k == target ==> k in v.secrets && v.secrets[k].data == secret.data)
            && (k != target ==> Lookup(v.secrets, k) == Lookup(w.secrets, k))
  {
  }

  lemma DeleteCallIsQuiet(lib: Libraries, s: State, e: Event, k: NamespacedName)
    requires e.Proceed? && Schedules.Sound(s) && (s.pass.DeleteSecret? || s.pass.ForcedDelete?)
    ensures var t := Next(lib, s, e);
            && t.world.credentials == s.world.credentials
            && (Lookup(t.world.secrets, k) == Lookup(s.world.secrets, k) || k !in t.world.secrets)
            && !HoldsPlan(t.pass) && !t.pass.PersistReady?
  {
    Schedules.SecretDeleteTracks(lib, s, e);
    DeletedInHand(lib, s, e);
    var target := TargetKey(s.pass.key, s.pass.cred);
    DeletedSecret(s.world, target, s.pass.key.name, s.pass.cred.uid, e.fault, k);
  }

  lemma DeletedSecret(w: World, target: NamespacedName, name: string, uid: string, fault: Fault, k: NamespacedName)
    ensures var v := Attempt(w, Some(DeleteOwnedSecret(w, target, name, uid)), fault).0;
            Lookup(v.secrets, k) == Lookup(w.secrets, k) || k !in v.secrets
  {
  }

  lemma UserCallKeepsPlan(lib: Libraries, s: State, e: Event)
    requires e.Proceed? && (s.pass.Connect? || s.pass.Define? || s.pass.RemoveUser? || s.pass.ConnectToRemove?)
    ensures var t := Next(lib, s, e);
            && t.world.credentials == s.world.credentials && t.world.secrets == s.world.secrets
            && (HoldsPlan(t.pass) ==> HoldsPlan(s.pass) && t.pass.plan == s.pass.plan)
            && !t.pass.PersistReady?
  {
  }

  lemma ReadCallHoldsNoPlan(lib: Libraries, s: State, e: Event)
    requires e.Proceed?
    requires s.pass.GetCredential? || s.pass.GetLatest? || s.pass.GetPolicy? || s.pass.GetProvider? || s.pass.GetRoot? || s.pass.GetTls?
    ensures var t := Next(lib, s, e); t.world == s.world && !HoldsPlan(t.pass) && !t.pass.PersistReady?
  {
  }

  lemma WriteCallHoldsNoPlan(lib: Libraries, s: State, e: Event)
    requires e.Proceed? && (s.pass.WriteStatus? || s.pass.PersistReady? || s.pass.AddFinalizer? || s.pass.DropFinalizer?)
    ensures var t := Next(lib, s, e); !HoldsPlan(t.pass) && !t.pass.PersistReady?
  {
  }

  /** The final write records the draw that is behind the Secret. */
  lemma PersistCallAges(lib: Libraries, s: State, e: Event, key: NamespacedName, k: NamespacedName, b: Option<Birth>, clock: int)
    requires Schedules.Sound(s) && Points(s.world, s.pass, key, k)
    requires Aged(s.world, key, k, b, clock) && PassAged(s.world, s.pass, key, b, clock)
    requires e.Proceed? && clock <= e.now && s.pass.PersistReady?
    ensures var t, after := Next(lib, s, e), BirthAfter(lib, s, e, k, b);
            Aged(t.world, key, k, after, e.now) && PassAged(t.world, t.pass, key, after, e.now)
  {
    WriteFollowsLast(lib, s, e, key);
    WriteCallHoldsNoPlan(lib, s, e);
    StatusKeepsPoints(lib, s, e, key, k);
    if Schedules.Completes(s, key, e) {
      RecordedLast(s.world, key, s.pass.cred, s.pass.plan);
    }
  }

  lemma RecordedLast(w: World, key: NamespacedName, c: Credential, p: Plan)
    requires Schedules.Settled(w) && Schedules.CarriesPlan(w, key, c, p) && IsFresh(w, key, c)
    ensures var last := Rotation.Complete(ScheduleOf(w.credentials[key].status), p.seen).last;
            if p.decision.action.Reuse? then last == LastOf(w, key) else last.Some? && last.value <= p.seen.now
  {
    if LastOf(w, key).Some? {
      Rotation.TruncateFixesWhole(LastOf(w, key).value);
    }
  }

  lemma CallAges(lib: Libraries, s: State, e: Event, key: NamespacedName, k: NamespacedName, b: Option<Birth>, clock: int)
    requires Schedules.Sound(s) && Ownership.Careful(s) && Points(s.world, s.pass, key, k)
    requires Aged(s.world, key, k, b, clock) && PassAged(s.world, s.pass, key, b, clock)
    requires e.Proceed? && clock <= e.now
    ensures var t, after := Next(lib, s, e), BirthAfter(lib, s, e, k, b);
            Aged(t.world, key, k, after, e.now) && PassAged(t.world, t.pass, key, after, e.now)
  {
    if s.pass.WriteSecret? {
      SecretCallAges(lib, s, e, key, k, b, clock);
    } else if s.pass.GetTarget? {
      TargetCallAges(lib, s, e, key, k, b, clock);
    } else if s.pass.PersistReady? {
      PersistCallAges(lib, s, e, key, k, b, clock);
    } else {
      if s.pass.Idle? {
      } else if s.pass.WriteStatus? || s.pass.AddFinalizer? || s.pass.DropFinalizer? {
        WriteFollowsLast(lib, s, e, key);
        WriteCallHoldsNoPlan(lib, s, e);
        if s.pass.WriteStatus? {
          StatusKeepsPoints(lib, s, e, key, k);
        } else {
          ObjectKeepsPoints(lib, s, e, key, k);
        }
      } else if s.pass.DeleteSecret? || s.pass.ForcedDelete? {
        DeleteCallIsQuiet(lib, s, e, k);
      } else if s.pass.Connect? || s.pass.Define? || s.pass.RemoveUser? || s.pass.ConnectToRemove? {
        UserCallKeepsPlan(lib, s, e);
      } else {
        ReadCallHoldsNoPlan(lib, s, e);
      }
      QuietCallAges(lib, s, e, key, k, b, clock);
    }
  }

  // ----- ages over runs -----

  lemma EditAges(lib: Libraries, s: State, e: Event, key: NamespacedName, k: NamespacedName, b: Option<Birth>, clock: int)
    requires Schedules.Sound(s) && e.Outside?
    requires Aged(s.world, key, k, b, clock) && PassAged(s.world, s.pass, key, b, clock)
    ensures var t, after := Next(lib, s, e), BirthAfter(lib, s, e, k, b);
            Aged(t.world, key, k, after, clock) && PassAged(t.world, t.pass, key, after, clock)
  {
    Schedules.EditRenews(s.world, e.edit);
    EditLeaves(s.world, e.edit, key, k);
  }

  lemma EditLeaves(w: World, e: Edit, key: NamespacedName, k: NamespacedName)
    ensures !Meddles(Outside(e), k) ==> Lookup(Apply(w, e).secrets, k) == Lookup(w.secrets, k)
    ensures key !in w.credentials ==> LastOf(Apply(w, e), key) == None
  {
  }

  /** The events keep the credential at its Secret. */
  predicate AllKeepTarget(key: NamespacedName, k: NamespacedName, es: seq<Event>) {
    forall i :: 0 <= i < |es| ==> KeepsTarget(key, k, es[i])
  }

  /** Where a run may start: any stores in which the recorded rotation is not in the future. */
  predicate Starts(s: State, key: NamespacedName, k: NamespacedName, clock: int) {
    && s.pass.Idle? && Schedules.Settled(s.world) && Ownership.VersionsGivenOut(s.world)
    && NotAfter(LastOf(s.world, key), clock) && (key in s.world.credentials ==> TargetKey(key, s.world.credentials[key]) == k)
  }

  lemma {:induction false} RunAges(lib: Libraries, s: State, es: seq<Event>, key: NamespacedName, k: NamespacedName, start: int)
    requires Starts(s, key, k, start) && Forward(start, es) && AllKeepTarget(key, k, es)
    ensures var t, b := Run(lib, s, es), BirthIn(lib, s, es, k);
            && Schedules.Sound(t) && Points(t.world, t.pass, key, k)
            && Aged(t.world, key, k, b, Clock(start, es)) && PassAged(t.world, t.pass, key, b, Clock(start, es))
    decreases |es|
  {
    if es != [] {
      var n := |es| - 1;
      var t, b, clock, e := Run(lib, s, es[..n]), BirthIn(lib, s, es[..n], k), Clock(start, es[..n]), es[n];
      RunAges(lib, s, es[..n], key, k, start);
      Ownership.RunIsCareful(lib, s, es[..n]);
      Schedules.RunIsSound(lib, s, es);
      EventAges(lib, t, e, key, k, b, clock);
    }
  }

  lemma EventAges(lib: Libraries, t: State, e: Event, key: NamespacedName, k: NamespacedName, b: Option<Birth>, clock: int)
    requires Schedules.Sound(t) && Ownership.Careful(t) && Points(t.world, t.pass, key, k) && KeepsTarget(key, k, e)
    requires Aged(t.world, key, k, b, clock) && PassAged(t.world, t.pass, key, b, clock)
    requires e.Proceed? ==> clock <= e.now
    ensures var u, after, now := Next(lib, t, e), BirthAfter(lib, t, e, k, b), if e.Proceed? then e.now else clock;
            Points(u.world, u.pass, key, k) && Aged(u.world, key, k, after, now) && PassAged(u.world, u.pass, key, after, now)
  {
    match e
    case Outside(edit) =>
      EditKeepsPoints(t.world, edit, t.pass, key, k);
      EditAges(lib, t, e, key, k, b, clock);
    case Proceed(_, _, _) =>
      CallKeepsPoints(lib, t, e, key, k);
      CallAges(lib, t, e, key, k, b, clock);
    case Begin(_) =>
    case Crash =>
  }

  /**
   * The age of passwords. In every run, with any faults, crashes and edits, passes over any credentials,
   * and a clock that does not go back: when a pass with a positive period completes, and a rotation was
   * recorded before it or it makes a new password, the password in the Secret is younger than the period,
   * wherever in the run it was drawn.
   */
  lemma CompletedPassBoundsAge(lib: Libraries, s: State, es: seq<Event>, e: Event, key: NamespacedName, k: NamespacedName, start: int)
    requires Starts(s, key, k, start) && Forward(start, es) && AllKeepTarget(key, k, es)
    requires var t := Run(lib, s, es);
             && Schedules.Completes(t, key, e)
             && t.pass.plan.seen.period.Some? && t.pass.plan.seen.period.value > 0
             && var stored := ScheduleOf(t.world.credentials[key].status);
                stored.last.Some? || !Rotation.KeepsPassword(stored, t.pass.plan.seen)
    ensures var t, b := Run(lib, s, es), BirthIn(lib, s, es, k);
            b.Some? ==>
              && HoldsPassword(t.world, k, b.value.password)
              && t.pass.plan.seen.now - b.value.at < t.pass.plan.seen.period.value
  {
    var t, b := Run(lib, s, es), BirthIn(lib, s, es, k);
    RunAges(lib, s, es, key, k, start);
    var stored := ScheduleOf(t.world.credentials[key].status);
    Rotation.KeepsPasswordIff(stored, t.pass.plan.seen);
  }
}
