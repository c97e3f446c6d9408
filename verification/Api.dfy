/** The API resources of api/v1alpha1, reduced to the fields the operator reads and writes. */
module Api {
  import opened Prelude

  const GROUP_VERSION: string := "surrealdb.seamlezz.com/v1alpha1"

  datatype UserLevel = Namespace | Database | OtherLevel(text: string)
  datatype Role = Viewer | Editor | Owner | OtherRole(text: string)

  function LevelText(l: UserLevel): string {
    match l
    case Namespace => "Namespace"
    case Database => "Database"
    case OtherLevel(t) => t
  }

  function RoleText(r: Role): string {
    match r
    case Viewer => "VIEWER"
    case Editor => "EDITOR"
    case Owner => "OWNER"
    case OtherRole(t) => t
  }

  datatype NamespacedName = NamespacedName(namespace: string, name: string)

  datatype OwnerReference = OwnerReference(
    apiVersion: string, kind: string, name: string, uid: string, controller: bool, blockOwnerDeletion: bool)

  /** A Secret; `version` is its resource version. */
  datatype Secret = Secret(
    version: nat,
    labels: map<string, string>,
    owners: seq<OwnerReference>,
    kind: string,
    data: map<string, string>)

  // ----- SurrealDBTenantPolicy -----

  datatype PolicySpec = PolicySpec(
    providerRef: string,
    surrealNamespace: string,
    allowedDatabases: seq<string>,
    databaseRoles: seq<Role>,
    namespaceUsersAllowed: bool,
    namespaceRoles: seq<Role>)

  // ----- SurrealDBProvider -----

  datatype RootReference = RootReference(secret: NamespacedName, usernameKey: string, passwordKey: string)
  datatype CaReference = CaReference(secret: NamespacedName, key: string)
  datatype CertificateReference = CertificateReference(secret: NamespacedName, certKey: string, keyKey: string)
  datatype TlsSpec = TlsSpec(ca: Option<CaReference>, certificate: Option<CertificateReference>, insecureSkipVerify: bool)
  datatype ProviderSpec = ProviderSpec(endpoint: string, root: RootReference, tls: Option<TlsSpec>)

  // ----- SurrealDBCredential -----

  datatype CredentialSpec = CredentialSpec(
    policyRef: string,
    level: UserLevel,
    database: string,
    roles: seq<Role>,
    targetSecret: string,
    period: Option<int>)

  datatype ConditionStatus = True | False
  datatype Condition = Condition(status: ConditionStatus, reason: string, generation: int)
  type Conditions = map<string, Condition>

  datatype CredentialStatus = CredentialStatus(
    observedGeneration: int,
    providerRef: Option<string>,
    surrealNamespace: string,
    database: string,
    username: string,
    lastRotation: Option<int>,
    nextRotation: Option<int>,
    lastManualTrigger: string,
    conditions: Conditions)

  datatype Credential = Credential(
    uid: string,
    version: nat,
    generation: int,
    deleting: bool,
    finalizers: set<string>,
    annotations: map<string, string>,
    spec: CredentialSpec,
    status: CredentialStatus)
}
