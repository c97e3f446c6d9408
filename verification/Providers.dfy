/**
 * Provider validation: internal/controller/surrealdbprovider_controller.go. A change to an object
 * leaves a notice; delivering it queues the providers concerned; a worker takes one queued provider
 * at a time, reads it, then its Secrets one by one, and writes the verdict. Anything else may happen
 * between two of these steps.
 */
module Providers {
  import opened Prelude
  import opened Platform
  import opened Api
  import opened Tls

  // ----- validation of one provider against a store -----

  function UsernameKey(ref: RootReference): string {
    Default(ref.usernameKey, "username")
  }

  function PasswordKey(ref: RootReference): string {
    Default(ref.passwordKey, "password")
  }

  /** What is wrong with a root credential Secret read as `found`. */
  function RootProblem(ref: RootReference, found: Option<Secret>): Option<Problem> {
    if found.None? then Some(RootMissing)
    else if Field(found.value, UsernameKey(ref)) == "" then Some(RootKeyMissing(UsernameKey(ref)))
    else if Field(found.value, PasswordKey(ref)) == "" then Some(RootKeyMissing(PasswordKey(ref)))
    else None
  }

  function Validate(lib: Libraries, store: Secrets, spec: ProviderSpec): Option<Problem> {
    if !lib.endpoint(spec.endpoint) then Some(BadEndpoint)
    else
      var root := RootProblem(spec.root, Lookup(store, spec.root.secret));
      if root.Some? then root else TlsProblem(lib, store, spec.tls)
  }

  // ----- what a verdict means -----

  /** The data fields of the root credentials: each with the Secret that holds it. */
  function RootNeeds(spec: ProviderSpec): set<(NamespacedName, string)> {
    {(spec.root.secret, UsernameKey(spec.root)), (spec.root.secret, PasswordKey(spec.root))}
  }

  /** The data fields of the TLS material. */
  function TlsNeeds(spec: ProviderSpec): set<(NamespacedName, string)> {
    (match if spec.tls.None? then None else spec.tls.value.ca
     case None => {}
     case Some(ca) => {(ca.secret, Default(ca.key, "ca.crt"))})
    + (match if spec.tls.None? then None else spec.tls.value.certificate
       case None => {}
       case Some(c) => {(c.secret, Default(c.certKey, "tls.crt")), (c.secret, Default(c.keyKey, "tls.key"))})
  }

  /** The data fields validation requires. */
  function Needs(spec: ProviderSpec): set<(NamespacedName, string)> {
    RootNeeds(spec) + TlsNeeds(spec)
  }

  /** A field as the store holds it; absent and empty count alike. */
  function Stored(store: Secrets, need: (NamespacedName, string)): string {
    if need.0 in store then Field(store[need.0], need.1) else ""
  }

  predicate RootInOrder(store: Secrets, spec: ProviderSpec) {
    forall need :: need in RootNeeds(spec) ==> Stored(store, need) != ""
  }

  /** Every TLS field is there, and the material parses. */
  predicate TlsInOrder(lib: Libraries, store: Secrets, spec: ProviderSpec) {
    && (forall need :: need in TlsNeeds(spec) ==> Stored(store, need) != "")
    && (spec.tls.Some? && spec.tls.value.ca.Some? ==>
          var ca := spec.tls.value.ca.value;
          lib.bundle(Stored(store, (ca.secret, Default(ca.key, "ca.crt")))))
    && (spec.tls.Some? && spec.tls.value.certificate.Some? ==>
          var c := spec.tls.value.certificate.value;
          lib.keyPair(Stored(store, (c.secret, Default(c.certKey, "tls.crt"))), Stored(store, (c.secret, Default(c.keyKey, "tls.key")))))
  }

  /** Every needed field is there, and the TLS material parses. */
  predicate InOrder(lib: Libraries, store: Secrets, spec: ProviderSpec) {
    RootInOrder(store, spec) && TlsInOrder(lib, store, spec)
  }

  /** What a reported problem says about the store. */
  predicate Ails(lib: Libraries, store: Secrets, spec: ProviderSpec, p: Problem) {
    var ca := if spec.tls.None? then None else spec.tls.value.ca;
    var cert := if spec.tls.None? then None else spec.tls.value.certificate;
    match p
    case BadEndpoint => !lib.endpoint(spec.endpoint)
    case RootMissing => spec.root.secret !in store
    case RootKeyMissing(key) =>
      key in {UsernameKey(spec.root), PasswordKey(spec.root)} && spec.root.secret in store && Stored(store, (spec.root.secret, key)) == ""
    case CaMissing => ca.Some? && ca.value.secret !in store
    case CaKeyMissing(key) =>
      ca.Some? && key == Default(ca.value.key, "ca.crt") && ca.value.secret in store && Stored(store, (ca.value.secret, key)) == ""
    case CaNotPem(key) =>
      ca.Some? && key == Default(ca.value.key, "ca.crt") && Stored(store, (ca.value.secret, key)) != ""
      && !lib.bundle(Stored(store, (ca.value.secret, key)))
    case CertificateMissing => cert.Some? && cert.value.secret !in store
    case CertificateKeyMissing(key) =>
      cert.Some? && key in {Default(cert.value.certKey, "tls.crt"), Default(cert.value.keyKey, "tls.key")}
      && cert.value.secret in store && Stored(store, (cert.value.secret, key)) == ""
    case CertificateInvalid =>
      cert.Some?
      && var pem, key := Stored(store, (cert.value.secret, Default(cert.value.certKey, "tls.crt"))),
                         Stored(store, (cert.value.secret, Default(cert.value.keyKey, "tls.key")));
         pem != "" && key != "" && !lib.keyPair(pem, key)
  }

  /** The order in which validation looks for problems. */
  function Rank(spec: ProviderSpec, p: Problem): nat {
    match p
    case BadEndpoint => 0
    case RootMissing => 1
    case RootKeyMissing(key) => if key == UsernameKey(spec.root) then 2 else 3
    case CaMissing => 4
    case CaKeyMissing(_) => 5
    case CaNotPem(_) => 6
    case CertificateMissing => 7
    case CertificateKeyMissing(key) =>
      if spec.tls.Some? && spec.tls.value.certificate.Some? && key == Default(spec.tls.value.certificate.value.certKey, "tls.crt") then 8 else 9
    case CertificateInvalid => 10
  }

  /** The first problem there is. */
  ghost predicate FirstProblem(lib: Libraries, store: Secrets, spec: ProviderSpec, p: Problem) {
    Ails(lib, store, spec, p) && forall q :: Ails(lib, store, spec, q) ==> Rank(spec, p) <= Rank(spec, q)
  }

  /** The fields whose contents are parsed are needed ones. */
  lemma MaterialFields(spec: ProviderSpec)
    ensures spec.tls.Some? && spec.tls.value.ca.Some? ==>
              (spec.tls.value.ca.value.secret, Default(spec.tls.value.ca.value.key, "ca.crt")) in TlsNeeds(spec)
    ensures spec.tls.Some? && spec.tls.value.certificate.Some? ==>
              var c := spec.tls.value.certificate.value;
              (c.secret, Default(c.certKey, "tls.crt")) in TlsNeeds(spec) && (c.secret, Default(c.keyKey, "tls.key")) in TlsNeeds(spec)
  {
  }

  lemma RootIff(store: Secrets, spec: ProviderSpec)
    ensures RootProblem(spec.root, Lookup(store, spec.root.secret)).None? <==> RootInOrder(store, spec)
  {
    var root := spec.root.secret;
    assert (root, UsernameKey(spec.root)) in RootNeeds(spec) && (root, PasswordKey(spec.root)) in RootNeeds(spec);
  }

  lemma TlsIff(lib: Libraries, store: Secrets, spec: ProviderSpec)
    ensures TlsProblem(lib, store, spec.tls).None? <==> TlsInOrder(lib, store, spec)
  {
    MaterialFields(spec);
  }

  lemma MaterialIff(lib: Libraries, store: Secrets, spec: ProviderSpec)
    ensures RootProblem(spec.root, Lookup(store, spec.root.secret)).None? && TlsProblem(lib, store, spec.tls).None?
            <==> InOrder(lib, store, spec)
  {
    RootIff(store, spec);
    TlsIff(lib, store, spec);
  }

  lemma VerdictIsReal(lib: Libraries, store: Secrets, spec: ProviderSpec)
    ensures var verdict := Validate(lib, store, spec); verdict.Some? ==> Ails(lib, store, spec, verdict.value)
  {
  }

  /** Nothing before the reported problem is wrong. */
  lemma VerdictIsFirst(lib: Libraries, store: Secrets, spec: ProviderSpec, q: Problem)
    requires Validate(lib, store, spec).Some? && Ails(lib, store, spec, q)
    ensures Rank(spec, Validate(lib, store, spec).value) <= Rank(spec, q)
  {
    var verdict := Validate(lib, store, spec).value;
    if Rank(spec, verdict) > 3 {
      assert RootProblem(spec.root, Lookup(store, spec.root.secret)).None?;
      assert Rank(spec, q) > 3;
    }
  }

  /** No problem is reported exactly when the endpoint is good and everything needed is in order; else the first problem is. */
  lemma VerdictMeans(lib: Libraries, store: Secrets, spec: ProviderSpec)
    ensures var verdict := Validate(lib, store, spec);
            && (verdict.None? <==> lib.endpoint(spec.endpoint) && InOrder(lib, store, spec))
            && (verdict.Some? ==> FirstProblem(lib, store, spec, verdict.value))
  {
    MaterialIff(lib, store, spec);
    VerdictIsReal(lib, store, spec);
    forall q | Validate(lib, store, spec).Some? && Ails(lib, store, spec, q)
      ensures Rank(spec, Validate(lib, store, spec).value) <= Rank(spec, q)
    {
      VerdictIsFirst(lib, store, spec, q);
    }
  }

  method ValidateProvider(lib: Libraries, store: Secrets, spec: ProviderSpec) returns (problem: Option<Problem>)
    ensures problem == Validate(lib, store, spec)
    ensures problem.None? <==> lib.endpoint(spec.endpoint) && InOrder(lib, store, spec)
    ensures problem.Some? ==> FirstProblem(lib, store, spec, problem.value)
  {
    VerdictMeans(lib, store, spec);
    if !lib.endpoint(spec.endpoint) {
      return Some(BadEndpoint);
    }
    var ref := spec.root;
    if ref.secret !in store {
      return Some(RootMissing);
    }
    var usernameKey := if ref.usernameKey == "" then "username" else ref.usernameKey;
    var passwordKey := if ref.passwordKey == "" then "password" else ref.passwordKey;
    if Field(store[ref.secret], usernameKey) == "" {
      return Some(RootKeyMissing(usernameKey));
    }
    if Field(store[ref.secret], passwordKey) == "" {
      return Some(RootKeyMissing(passwordKey));
    }
    var config;
    problem, config := LoadTlsConfig(lib, store, spec.tls);
  }

  /** The Secrets validation may read, in reading order. */
  function References(spec: ProviderSpec): seq<NamespacedName> {
    [spec.root.secret]
    + (if spec.tls.Some? && spec.tls.value.ca.Some? then [spec.tls.value.ca.value.secret] else [])
    + (if spec.tls.Some? && spec.tls.value.certificate.Some? then [spec.tls.value.certificate.value.secret] else [])
  }

  /** The Secrets that hold a needed field. */
  function NeededSecrets(spec: ProviderSpec): set<NamespacedName> {
    set need | need in Needs(spec) :: need.0
  }

  /** The listed references are exactly the Secrets that hold a needed field. */
  lemma ReferencesAreNeeded(spec: ProviderSpec)
    ensures forall k :: k in References(spec) <==> k in NeededSecrets(spec)
  {
    var root := (spec.root.secret, UsernameKey(spec.root));
    assert root in Needs(spec);
    if spec.tls.Some? && spec.tls.value.ca.Some? {
      var ca := (spec.tls.value.ca.value.secret, Default(spec.tls.value.ca.value.key, "ca.crt"));
      assert ca in Needs(spec);
    }
    if spec.tls.Some? && spec.tls.value.certificate.Some? {
      var c := (spec.tls.value.certificate.value.secret, Default(spec.tls.value.certificate.value.certKey, "tls.crt"));
      assert c in Needs(spec);
    }
  }

  method ReferencedSecrets(spec: ProviderSpec) returns (secrets: seq<NamespacedName>)
    ensures secrets == References(spec)
    ensures forall k :: k in secrets <==> k in NeededSecrets(spec)
  {
    ReferencesAreNeeded(spec);
    secrets := [spec.root.secret];
    if spec.tls.Some? {
      if spec.tls.value.ca.Some? {
        secrets := secrets + [spec.tls.value.ca.value.secret];
      }
      if spec.tls.value.certificate.Some? {
        secrets := secrets + [spec.tls.value.certificate.value.secret];
      }
    }
  }

  /** Stores that agree on the referenced Secrets give the same verdict. */
  lemma ValidateReadsOnlyReferences(lib: Libraries, a: Secrets, b: Secrets, spec: ProviderSpec)
    requires forall k :: k in References(spec) ==> Lookup(a, k) == Lookup(b, k)
    ensures Validate(lib, a, spec) == Validate(lib, b, spec)
  {
    var refs := References(spec);
    assert refs[0] == spec.root.secret;
    if spec.tls.Some? && spec.tls.value.ca.Some? {
      assert refs[1] == spec.tls.value.ca.value.secret;
    }
    if spec.tls.Some? && spec.tls.value.certificate.Some? {
      assert refs[|refs| - 1] == spec.tls.value.certificate.value.secret;
    }
  }

  datatype Progress = NeedsRead | Verdict(problem: Option<Problem>)

  /** Validation from the reads made so far: it stops at the first problem. */
  function Judge(lib: Libraries, spec: ProviderSpec, seen: seq<Option<Secret>>): Progress {
    if !lib.endpoint(spec.endpoint) then Verdict(Some(BadEndpoint))
    else if |seen| == 0 then NeedsRead
    else if RootProblem(spec.root, seen[0]).Some? then Verdict(RootProblem(spec.root, seen[0]))
    else if spec.tls.None? then Verdict(None)
    else JudgeTls(lib, spec.tls.value, seen[1..])
  }

  function JudgeTls(lib: Libraries, tls: TlsSpec, seen: seq<Option<Secret>>): Progress {
    if tls.ca.Some? then
      if |seen| == 0 then NeedsRead
      else if CaProblem(lib, tls.ca.value, seen[0]).Some? then Verdict(CaProblem(lib, tls.ca.value, seen[0]))
      else JudgeCertificate(lib, tls, seen[1..])
    else JudgeCertificate(lib, tls, seen)
  }

  function JudgeCertificate(lib: Libraries, tls: TlsSpec, seen: seq<Option<Secret>>): Progress {
    if tls.certificate.None? then Verdict(None)
    else if |seen| == 0 then NeedsRead
    else Verdict(CertificateProblem(lib, tls.certificate.value, seen[0]))
  }

  /** The reads made so far are what the store holds now. */
  predicate ReadsCurrent(store: Secrets, spec: ProviderSpec, seen: seq<Option<Secret>>) {
    && |seen| <= |References(spec)|
    && forall i :: 0 <= i < |seen| ==> seen[i] == Lookup(store, References(spec)[i])
  }

  /** Reads that are still current give the verdict of the current store. */
  lemma JudgeAgreesWithValidate(lib: Libraries, store: Secrets, spec: ProviderSpec, seen: seq<Option<Secret>>)
    requires ReadsCurrent(store, spec, seen)
    ensures Judge(lib, spec, seen).Verdict? ==> Judge(lib, spec, seen).problem == Validate(lib, store, spec)
  {
    var refs := References(spec);
    assert refs[0] == spec.root.secret;
    if spec.tls.Some? && spec.tls.value.ca.Some? {
      assert refs[1] == spec.tls.value.ca.value.secret;
    }
    if spec.tls.Some? && spec.tls.value.certificate.Some? {
      assert refs[|refs| - 1] == spec.tls.value.certificate.value.secret;
    }
  }

  /** Validation never needs more reads than there are references. */
  lemma EnoughReads(lib: Libraries, spec: ProviderSpec, seen: seq<Option<Secret>>)
    requires Judge(lib, spec, seen).NeedsRead?
    ensures |seen| < |References(spec)|
  {
  }

  // ----- the controller -----

  datatype ProviderStatus = ProviderStatus(observedGeneration: int, problem: Option<Problem>)
  datatype Provider = Provider(version: nat, generation: int, spec: ProviderSpec, status: Option<ProviderStatus>)
  datatype Notice = SecretChanged(key: NamespacedName) | ProviderChanged(name: string)
  datatype Worker = Free | Busy(name: string, provider: Provider, seen: seq<Option<Secret>>)

  datatype System = System(
    secrets: Secrets,
    providers: map<string, Provider>,
    revision: nat,
    notices: set<Notice>,
    queue: set<string>,
    worker: Worker)

  datatype Outcome = Done | Lost | Unacknowledged

  datatype Event =
    | PutSecret(key: NamespacedName, secret: Secret)
    | DropSecret(key: NamespacedName)
    | PutProvider(target: string, spec: ProviderSpec)
    | TouchProvider(target: string)
    | DropProvider(target: string)
    | Deliver(notice: Notice)
    | Begin(name: string)
    | Read
    | Finish(outcome: Outcome)
    | Restart

  /** The providers a Secret notice queues. */
  function ProvidersForSecret(providers: map<string, Provider>, key: NamespacedName): set<string> {
    set name | name in providers && key in References(providers[name].spec)
  }

  /** The mapping function over a listed snapshot: one request per concerned provider, in list order. */
  method RequestsForSecret(items: seq<(string, ProviderSpec)>, key: NamespacedName) returns (requests: seq<string>)
    ensures requests == ListedRequests(items, key)
  {
    requests := [];
    for i := 0 to |items|
      invariant requests == ListedRequests(items[..i], key)
    {
      assert items[..i + 1][..i] == items[..i];
      var refs := ReferencedSecrets(items[i].1);
      var found := false;
      for j := 0 to |refs|
        invariant !found && key !in refs[..j]
      {
        if refs[j] == key {
          requests := requests + [items[i].0];
          found := true;
          break;
        }
        assert refs[..j + 1] == refs[..j] + [refs[j]];
      }
      assert refs[..|refs|] == refs;
      assert found <==> key in refs;
    }
    assert items[..|items|] == items;
  }

  function ListedRequests(items: seq<(string, ProviderSpec)>, key: NamespacedName): seq<string>
    decreases |items|
  {
    if items == [] then []
    else
      var n := |items| - 1;
      ListedRequests(items[..n], key) + (if key in References(items[n].1) then [items[n].0] else [])
  }

  /** A provider is requested exactly when its entry references the Secret. */
  lemma {:induction false} ListedRequestsAreTheConcerned(items: seq<(string, ProviderSpec)>, key: NamespacedName)
    ensures forall name :: name in ListedRequests(items, key) <==>
              exists i :: 0 <= i < |items| && items[i].0 == name && key in References(items[i].1)
    decreases |items|
  {
    if items != [] {
      var n := |items| - 1;
      ListedRequestsAreTheConcerned(items[..n], key);
      forall name
        ensures name in ListedRequests(items, key) <==>
                exists i :: 0 <= i < |items| && items[i].0 == name && key in References(items[i].1)
      {
        if i :| 0 <= i < |items| && items[i].0 == name && key in References(items[i].1) {
          if i < n {
            assert items[..n][i] == items[i];
          }
        }
      }
    }
  }

  /** The list names every provider, as it is stored. */
  ghost predicate Lists(items: seq<(string, ProviderSpec)>, providers: map<string, Provider>) {
    && (forall i :: 0 <= i < |items| ==> items[i].0 in providers && items[i].1 == providers[items[i].0].spec)
    && (forall name :: name in providers ==> exists i :: 0 <= i < |items| && items[i].0 == name)
  }

  /** A list of every provider yields exactly the requests of the controller's queue rule. */
  lemma QueueRuleIsTheMapping(items: seq<(string, ProviderSpec)>, providers: map<string, Provider>, key: NamespacedName)
    requires Lists(items, providers)
    ensures forall name :: name in ListedRequests(items, key) <==> name in ProvidersForSecret(providers, key)
  {
    ListedRequestsAreTheConcerned(items, key);
    forall name
      ensures name in ListedRequests(items, key) <==> name in ProvidersForSecret(providers, key)
    {
      if name in ProvidersForSecret(providers, key) {
        var i :| 0 <= i < |items| && items[i].0 == name;
      }
    }
  }

  /** How many of these need a field of this Secret. */
  function Concerned(items: seq<(string, ProviderSpec)>, key: NamespacedName): nat {
    if items == [] then 0
    else Concerned(items[..|items| - 1], key) + (if key in NeededSecrets(items[|items| - 1].1) then 1 else 0)
  }

  /** One request per concerned entry. */
  lemma {:induction false} RequestsCounted(items: seq<(string, ProviderSpec)>, key: NamespacedName)
    ensures |ListedRequests(items, key)| == Concerned(items, key)
    decreases |items|
  {
    if items != [] {
      RequestsCounted(items[..|items| - 1], key);
      ReferencesAreNeeded(items[|items| - 1].1);
    }
  }

  lemma {:induction false} RequestsOfPrefix(items: seq<(string, ProviderSpec)>, key: NamespacedName, n: nat)
    requires n <= |items|
    ensures ListedRequests(items[..n], key) <= ListedRequests(items, key)
    decreases |items|
  {
    if n == |items| {
      assert items[..n] == items;
    } else {
      var m := |items| - 1;
      RequestsOfPrefix(items[..m], key, n);
      assert items[..m][..n] == items[..n];
    }
  }

  /** Each concerned entry has its request in its place: as many come before it as concerned entries do. */
  lemma RequestsInListOrder(items: seq<(string, ProviderSpec)>, key: NamespacedName, i: nat)
    requires i < |items| && key in NeededSecrets(items[i].1)
    ensures |ListedRequests(items, key)| == Concerned(items, key)
    ensures var n := Concerned(items[..i], key);
            n < |ListedRequests(items, key)| && ListedRequests(items, key)[n] == items[i].0
  {
    RequestsCounted(items, key);
    RequestsCounted(items[..i], key);
    ReferencesAreNeeded(items[i].1);
    RequestAppended(items, key, i);
    RequestsOfPrefix(items, key, i + 1);
  }

  lemma RequestAppended(items: seq<(string, ProviderSpec)>, key: NamespacedName, i: nat)
    requires i < |items| && key in References(items[i].1)
    ensures ListedRequests(items[..i + 1], key) == ListedRequests(items[..i], key) + [items[i].0]
  {
    assert items[..i + 1][..i] == items[..i];
  }

  /** Replaces a provider's content; writing what is already there is not a change. */
  function Store(s: System, name: string, p: Provider): System {
    if name in s.providers && s.providers[name].(version := p.version) == p then s
    else s.(providers := s.providers[name := p.(version := s.revision)],
            revision := s.revision + 1,
            notices := s.notices + {ProviderChanged(name)})
  }

  function Verdicted(p: Provider, problem: Option<Problem>): Provider {
    p.(status := Some(ProviderStatus(p.generation, problem)))
  }

  /** The status write at the end of a pass; a failed write queues the provider again. */
  function Conclude(s: System, name: string, p: Provider, problem: Option<Problem>, outcome: Outcome): System {
    var free := s.(worker := Free);
    var again := free.(queue := s.queue + {name});
    if name !in s.providers || s.providers[name].version != p.version then again
    else match outcome
      case Done => Store(free, name, Verdicted(s.providers[name], problem))
      case Lost => again
      case Unacknowledged => Store(again, name, Verdicted(s.providers[name], problem))
  }

  function Next(lib: Libraries, s: System, e: Event): System {
    match e
    case PutSecret(key, secret) =>
      s.(secrets := s.secrets[key := secret], notices := s.notices + {SecretChanged(key)})
    case DropSecret(key) =>
      s.(secrets := s.secrets - {key}, notices := s.notices + {SecretChanged(key)})
    case PutProvider(name, spec) =>
      if name in s.providers then
        var p := s.providers[name];
        Store(s, name, if spec == p.spec then p else p.(spec := spec, generation := p.generation + 1))
      else Store(s, name, Provider(0, 1, spec, None))
    case TouchProvider(name) =>
      if name !in s.providers then s
      else s.(providers := s.providers[name := s.providers[name].(version := s.revision)],
              revision := s.revision + 1,
              notices := s.notices + {ProviderChanged(name)})
    case DropProvider(name) =>
      s.(providers := s.providers - {name}, notices := s.notices + {ProviderChanged(name)})
    case Deliver(notice) =>
      if notice !in s.notices then s
      else
        var names := match notice
          case SecretChanged(key) => ProvidersForSecret(s.providers, key)
          case ProviderChanged(name) => {name};
        s.(notices := s.notices - {notice}, queue := s.queue + names)
    case Begin(name) =>
      if !s.worker.Free? || name !in s.queue then s
      else if name !in s.providers then s.(queue := s.queue - {name})
      else s.(queue := s.queue - {name}, worker := Busy(name, s.providers[name], []))
    case Read =>
      if !s.worker.Busy? || !Judge(lib, s.worker.provider.spec, s.worker.seen).NeedsRead? then s
      else
        var w := s.worker;
        EnoughReads(lib, w.provider.spec, w.seen);
        s.(worker := w.(seen := w.seen + [Lookup(s.secrets, References(w.provider.spec)[|w.seen|])]))
    case Finish(outcome) =>
      if !s.worker.Busy? || !Judge(lib, s.worker.provider.spec, s.worker.seen).Verdict? then s
      else Conclude(s, s.worker.name, s.worker.provider, Judge(lib, s.worker.provider.spec, s.worker.seen).problem, outcome)
    case Restart =>
      s.(worker := Free, queue := s.queue + s.providers.Keys)
  }

  function Run(lib: Libraries, s: System, es: seq<Event>): System
    decreases |es|
  {
    if es == [] then s else Next(lib, Run(lib, s, es[..|es| - 1]), es[|es| - 1])
  }

  // ----- incremental validation agrees with full validation -----

  /** Nothing is waiting to be done about this provider. */
  predicate Quiet(s: System, name: string)
    requires name in s.providers
  {
    && name !in s.queue
    && ProviderChanged(name) !in s.notices
    && forall k :: k in References(s.providers[name].spec) ==> SecretChanged(k) !in s.notices
  }

  /** The stored verdict is the one full validation would give now. */
  predicate UpToDate(lib: Libraries, s: System, name: string)
    requires name in s.providers
  {
    var p := s.providers[name];
    p.status == Some(ProviderStatus(p.generation, Validate(lib, s.secrets, p.spec)))
  }

  predicate WorksOn(s: System, name: string) {
    s.worker.Busy? && s.worker.name == name
  }

  /** What a busy worker holds of a quiet provider is still true. */
  predicate WorkCurrent(s: System) {
    s.worker.Busy? ==>
      && |s.worker.seen| <= |References(s.worker.provider.spec)|
      && (s.worker.name in s.providers && Quiet(s, s.worker.name) ==>
            && s.providers[s.worker.name] == s.worker.provider
            && ReadsCurrent(s.secrets, s.worker.provider.spec, s.worker.seen))
  }

  predicate Sound(lib: Libraries, s: System) {
    && (forall name :: name in s.providers && Quiet(s, name) && !WorksOn(s, name) ==> UpToDate(lib, s, name))
    && WorkCurrent(s)
  }

  /** Every controller starts with every provider queued. */
  predicate Initial(s: System) {
    s.worker.Free? && s.providers.Keys <= s.queue
  }

  lemma SecretStepSound(lib: Libraries, s: System, key: NamespacedName, store: Secrets)
    requires Sound(lib, s)
    requires forall k :: k != key ==> Lookup(store, k) == Lookup(s.secrets, k)
    ensures Sound(lib, s.(secrets := store, notices := s.notices + {SecretChanged(key)}))
  {
    var t := s.(secrets := store, notices := s.notices + {SecretChanged(key)});
    forall name | name in t.providers && Quiet(t, name)
      ensures Quiet(s, name)
      ensures UpToDate(lib, t, name) <==> UpToDate(lib, s, name)
    {
      ValidateReadsOnlyReferences(lib, s.secrets, store, s.providers[name].spec);
    }
  }

  lemma DeliverSound(lib: Libraries, s: System, notice: Notice)
    requires Sound(lib, s) && notice in s.notices
    ensures Sound(lib, Next(lib, s, Deliver(notice)))
  {
    var t := Next(lib, s, Deliver(notice));
    forall name | name in t.providers && Quiet(t, name)
      ensures Quiet(s, name)
    {
      assert notice.SecretChanged? ==> notice.key !in References(s.providers[name].spec) by {
        assert notice.SecretChanged? ==> name !in ProvidersForSecret(s.providers, notice.key);
      }
    }
  }

  /** A change to one provider leaves a notice about it and touches no other. */
  lemma ProviderStepSound(lib: Libraries, s: System, t: System, name: string)
    requires Sound(lib, s)
    requires t == s.(providers := t.providers, revision := t.revision, notices := s.notices + {ProviderChanged(name)})
    requires forall n :: n != name ==> Lookup(t.providers, n) == Lookup(s.providers, n)
    ensures Sound(lib, t)
  {
    forall n | n in t.providers && Quiet(t, n)
      ensures n != name && n in s.providers && s.providers[n] == t.providers[n] && Quiet(s, n)
    {
      assert Lookup(t.providers, n) == Lookup(s.providers, n);
    }
  }

  lemma BeginSound(lib: Libraries, s: System, name: string)
    requires Sound(lib, s)
    ensures Sound(lib, Next(lib, s, Begin(name)))
  {
    var t := Next(lib, s, Begin(name));
    forall n | n in t.providers && Quiet(t, n) && !WorksOn(t, n)
      ensures Quiet(s, n) && !WorksOn(s, n)
    {
    }
  }

  lemma ReadSound(lib: Libraries, s: System)
    requires Sound(lib, s)
    ensures Sound(lib, Next(lib, s, Read))
  {
    var t := Next(lib, s, Read);
    forall n | n in t.providers
      ensures Quiet(t, n) <==> Quiet(s, n)
    {
    }
  }

  lemma FinishSound(lib: Libraries, s: System, outcome: Outcome)
    requires Sound(lib, s)
    ensures Sound(lib, Next(lib, s, Finish(outcome)))
  {
    var t := Next(lib, s, Finish(outcome));
    if s.worker.Busy? && Judge(lib, s.worker.provider.spec, s.worker.seen).Verdict? {
      var name, p := s.worker.name, s.worker.provider;
      var problem := Judge(lib, p.spec, s.worker.seen).problem;
      forall n | n in t.providers && Quiet(t, n)
        ensures UpToDate(lib, t, n)
      {
        assert n in s.providers && Quiet(s, n);
        if n == name {
          JudgeAgreesWithValidate(lib, s.secrets, p.spec, s.worker.seen);
        } else {
          assert s.providers[n] == t.providers[n];
        }
      }
    }
  }

  lemma StepSound(lib: Libraries, s: System, e: Event)
    requires Sound(lib, s)
    ensures Sound(lib, Next(lib, s, e))
  {
    match e {
      case PutSecret(key, secret) => SecretStepSound(lib, s, key, s.secrets[key := secret]);
      case DropSecret(key) => SecretStepSound(lib, s, key, s.secrets - {key});
      case PutProvider(name, spec) => if Next(lib, s, e) != s { ProviderStepSound(lib, s, Next(lib, s, e), name); }
      case TouchProvider(name) => if Next(lib, s, e) != s { ProviderStepSound(lib, s, Next(lib, s, e), name); }
      case DropProvider(name) => ProviderStepSound(lib, s, Next(lib, s, e), name);
      case Deliver(notice) => if notice in s.notices { DeliverSound(lib, s, notice); }
      case Begin(name) => BeginSound(lib, s, name);
      case Read => ReadSound(lib, s);
      case Finish(outcome) => FinishSound(lib, s, outcome);
      case Restart => forall n | n in s.providers ensures n in Next(lib, s, e).queue { }
    }
  }

  /**
   * In every run of object changes, deliveries, restarts and interleaved passes, each provider that
   * nothing waits for and no worker holds has the stored verdict full validation would give now.
   */
  lemma {:induction false} IncrementalEqualsFull(lib: Libraries, s: System, es: seq<Event>)
    requires Initial(s)
    ensures Sound(lib, Run(lib, s, es))
    ensures var t := Run(lib, s, es);
            forall name :: name in t.providers && Quiet(t, name) && !WorksOn(t, name) ==> UpToDate(lib, t, name)
    decreases |es|
  {
    if es == [] {
    } else {
      IncrementalEqualsFull(lib, s, es[..|es| - 1]);
      StepSound(lib, Run(lib, s, es[..|es| - 1]), es[|es| - 1]);
    }
  }

  // ----- a pass -----

  /** What happens outside the worker. */
  predicate Outside(e: Event) {
    !e.Begin? && !e.Read? && !e.Finish? && !e.Restart?
  }

  predicate AllOutside(es: seq<Event>) {
    forall i :: 0 <= i < |es| ==> Outside(es[i])
  }

  /** Between the begin and the end of a pass there are only its reads and outside changes. */
  predicate Reading(es: seq<Event>) {
    forall i :: 0 <= i < |es| ==> es[i].Read? || Outside(es[i])
  }

  /** What follows the begin of a pass: nothing if the provider is gone, else reads and one end. */
  predicate OnePass(es: seq<Event>, outcome: Outcome) {
    es == [] || (es[|es| - 1] == Finish(outcome) && Reading(es[..|es| - 1]))
  }

  lemma OutsideLeavesWorker(lib: Libraries, s: System, e: Event)
    requires Outside(e)
    ensures Next(lib, s, e).worker == s.worker && s.queue <= Next(lib, s, e).queue
  {
  }

  class ProviderReconciler {
    const lib: Libraries
    ghost const start: System
    ghost var history: seq<Event>
    var system: System

    /** The system is where the events so far have brought it. */
    ghost predicate Valid()
      reads this
    {
      system == Run(lib, start, history)
    }

    constructor (lib: Libraries, start: System)
      ensures Valid() && system == start && history == []
    {
      this.lib, this.start, this.system, this.history := lib, start, start, [];
    }

    method Step(e: Event)
      requires Valid()
      modifies this
      ensures Valid() && system == Next(lib, old(system), e) && history == old(history) + [e]
    {
      system := Next(lib, system, e);
      history := history + [e];
      assert history[..|history| - 1] == old(history);
    }

    /** Outside changes between two calls of a pass. */
    method Meanwhile(es: seq<Event>)
      requires Valid() && AllOutside(es)
      modifies this
      ensures Valid() && history == old(history) + es
      ensures system.worker == old(system).worker && old(system).queue <= system.queue
      ensures es == [] ==> system == old(system)
    {
      for i := 0 to |es|
        invariant Valid() && history == old(history) + es[..i]
        invariant system.worker == old(system).worker && old(system).queue <= system.queue
        invariant es == [] ==> system == old(system)
      {
        OutsideLeavesWorker(lib, system, es[i]);
        Step(es[i]);
        assert es[..i + 1] == es[..i] + [es[i]];
      }
      assert es[..|es|] == es;
    }

    /** The worker holds this provider as it is stored, with reads that are still current. */
    ghost predicate Undisturbed(name: string, provider: Provider, store: Secrets)
      reads this
    {
      && system.secrets == store
      && Lookup(system.providers, name) == Some(provider)
      && WorksOn(system, name) && system.worker.provider == provider
      && ReadsCurrent(store, provider.spec, system.worker.seen)
    }

    method ReadOne(name: string, provider: Provider)
      requires Valid() && WorksOn(system, name) && system.worker.provider == provider
      requires Judge(lib, provider.spec, system.worker.seen).NeedsRead?
      modifies this
      ensures Valid() && history == old(history) + [Read] && WorksOn(system, name) && system.worker.provider == provider
      ensures |system.worker.seen| == |old(system).worker.seen| + 1 <= |References(provider.spec)|
      ensures old(Undisturbed(name, provider, system.secrets)) ==> Undisturbed(name, provider, old(system).secrets)
    {
      EnoughReads(lib, provider.spec, system.worker.seen);
      Step(Read);
    }

    method ReadReferences(name: string, provider: Provider, between: nat -> seq<Event>)
      requires Valid() && WorksOn(system, name) && system.worker.provider == provider && system.worker.seen == []
      requires forall i :: AllOutside(between(i))
      modifies this
      ensures Valid() && WorksOn(system, name) && system.worker.provider == provider
      ensures old(history) <= history && Reading(history[|old(history)|..])
      ensures Judge(lib, provider.spec, system.worker.seen).Verdict?
      ensures (forall i :: between(i) == []) && old(Undisturbed(name, provider, system.secrets)) ==>
                Undisturbed(name, provider, old(system).secrets)
    {
      ghost var store := system.secrets;
      ghost var calm := (forall i :: between(i) == []) && Undisturbed(name, provider, store);
      var calls := 1;
      while Judge(lib, provider.spec, system.worker.seen).NeedsRead?
        invariant Valid() && old(history) <= history && Reading(history[|old(history)|..])
        invariant WorksOn(system, name) && system.worker.provider == provider
        invariant |system.worker.seen| <= |References(provider.spec)|
        invariant calm ==> Undisturbed(name, provider, store)
        decreases |References(provider.spec)| - |system.worker.seen|
      {
        Meanwhile(between(calls));
        ReadOne(name, provider);
        calls := calls + 1;
      }
    }

    method Report(name: string, provider: Provider, outcome: Outcome)
      requires Valid() && WorksOn(system, name) && system.worker.provider == provider
      requires Judge(lib, provider.spec, system.worker.seen).Verdict?
      modifies this
      ensures Valid() && history == old(history) + [Finish(outcome)] && system.worker.Free?
      ensures outcome.Done? && old(Undisturbed(name, provider, system.secrets)) ==>
                && system.secrets == old(system).secrets
                && name in system.providers && UpToDate(lib, system, name)
    {
      if Undisturbed(name, provider, system.secrets) {
        JudgeAgreesWithValidate(lib, system.secrets, provider.spec, system.worker.seen);
      }
      Step(Finish(outcome));
    }

    /** The pass once the provider is read: its references, the verdict, the report. */
    method Work(name: string, provider: Provider, between: nat -> seq<Event>, outcome: Outcome)
      requires Valid() && WorksOn(system, name) && system.worker.provider == provider && system.worker.seen == []
      requires forall i :: AllOutside(between(i))
      modifies this
      ensures Valid() && system.worker.Free? && old(history) <= history && OnePass(history[|old(history)|..], outcome)
      ensures (forall i :: between(i) == []) && outcome.Done? && old(Undisturbed(name, provider, system.secrets)) ==>
                && system.secrets == old(system).secrets
                && name in system.providers && UpToDate(lib, system, name)
    {
      ReadReferences(name, provider, between);
      Meanwhile(between(4));
      ghost var made := history[|old(history)|..];
      Report(name, provider, outcome);
      assert history[|old(history)|..] == made + [Finish(outcome)];
    }

    /**
     * One pass over a queued provider. Whatever happens in between, it is a run of the controller;
     * undisturbed, it leaves the provider with the verdict of full validation.
     */
    method Reconcile(name: string, between: nat -> seq<Event>, outcome: Outcome)
      requires Valid() && system.worker.Free? && name in system.queue
      requires forall i :: AllOutside(between(i))
      modifies this
      ensures Valid() && old(history) + between(0) + [Begin(name)] <= history && system.worker.Free?
      ensures OnePass(history[|old(history) + between(0)| + 1..], outcome)
      ensures (forall i :: between(i) == []) && outcome.Done? && name in old(system).providers ==>
                && system.secrets == old(system).secrets
                && name in system.providers && UpToDate(lib, system, name)
    {
      Meanwhile(between(0));
      Step(Begin(name));
      if system.worker.Free? {
        return;
      }
      Work(name, system.worker.provider, between, outcome);
    }
  }
}
