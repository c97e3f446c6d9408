/** Provider TLS material and root credentials: internal/surreal/tls.go and the reads around it. */
module Tls {
  import opened Prelude
  import opened Platform
  import opened Api

  /** What is wrong with a provider's references; the operator reports it as a message. */
  datatype Problem =
    | BadEndpoint
    | RootMissing
    | RootKeyMissing(key: string)
    | CaMissing
    | CaKeyMissing(key: string)
    | CaNotPem(key: string)
    | CertificateMissing
    | CertificateKeyMissing(key: string)
    | CertificateInvalid

  type Secrets = map<NamespacedName, Secret>

  function Default(key: string, fallback: string): string {
    if key == "" then fallback else key
  }

  /** A data key of a Secret, where absent and empty count alike. */
  function Field(s: Secret, key: string): string {
    if key in s.data then s.data[key] else ""
  }

  /** What is wrong with a CA Secret read as `found`. */
  function CaProblem(lib: Libraries, ref: CaReference, found: Option<Secret>): Option<Problem> {
    var key := Default(ref.key, "ca.crt");
    if found.None? then Some(CaMissing)
    else if Field(found.value, key) == "" then Some(CaKeyMissing(key))
    else if !lib.bundle(Field(found.value, key)) then Some(CaNotPem(key))
    else None
  }

  /** What is wrong with a client certificate Secret read as `found`. */
  function CertificateProblem(lib: Libraries, ref: CertificateReference, found: Option<Secret>): Option<Problem> {
    var certKey, keyKey := Default(ref.certKey, "tls.crt"), Default(ref.keyKey, "tls.key");
    if found.None? then Some(CertificateMissing)
    else if Field(found.value, certKey) == "" then Some(CertificateKeyMissing(certKey))
    else if Field(found.value, keyKey) == "" then Some(CertificateKeyMissing(keyKey))
    else if !lib.keyPair(Field(found.value, certKey), Field(found.value, keyKey)) then Some(CertificateInvalid)
    else None
  }

  /** What is wrong with the TLS material in a store, if anything. */
  function TlsProblem(lib: Libraries, store: Secrets, tls: Option<TlsSpec>): Option<Problem> {
    if tls.None? then None
    else
      var ca := if tls.value.ca.None? then None
                else CaProblem(lib, tls.value.ca.value, Lookup(store, tls.value.ca.value.secret));
      if ca.Some? then ca
      else if tls.value.certificate.None? then None
      else CertificateProblem(lib, tls.value.certificate.value, Lookup(store, tls.value.certificate.value.secret))
  }

  /** The client configuration under construction. */
  class TlsConfig {
    var insecureSkipVerify: bool
    var rootCAs: Option<string>
    var certificates: seq<(string, string)>

    constructor (skip: bool)
      ensures insecureSkipVerify == skip && rootCAs == None && certificates == []
    {
      insecureSkipVerify, rootCAs, certificates := skip, None, [];
    }
  }

  /** Loading succeeds exactly when nothing is wrong, and then carries the material the references name. */
  method LoadTlsConfig(lib: Libraries, store: Secrets, tls: Option<TlsSpec>) returns (problem: Option<Problem>, config: TlsConfig?)
    ensures problem == TlsProblem(lib, store, tls)
    ensures config != null <==> problem.None? && tls.Some?
    ensures config != null ==> fresh(config) && config.insecureSkipVerify == tls.value.insecureSkipVerify
    ensures config != null ==>
              config.rootCAs == match tls.value.ca
                                case None => None
                                case Some(r) => Some(Field(store[r.secret], Default(r.key, "ca.crt")))
    ensures config != null ==>
              config.certificates == match tls.value.certificate
                                     case None => []
                                     case Some(r) => [(Field(store[r.secret], Default(r.certKey, "tls.crt")),
                                                       Field(store[r.secret], Default(r.keyKey, "tls.key")))]
  {
    if tls.None? {
      return None, null;
    }
    var cfg := tls.value;
    var built := new TlsConfig(cfg.insecureSkipVerify);
    if cfg.ca.Some? {
      var ref := cfg.ca.value;
      if ref.secret !in store {
        return Some(CaMissing), null;
      }
      var key := if ref.key == "" then "ca.crt" else ref.key;
      var pem := Field(store[ref.secret], key);
      if pem == "" {
        return Some(CaKeyMissing(key)), null;
      }
      if !lib.bundle(pem) {
        return Some(CaNotPem(key)), null;
      }
      built.rootCAs := Some(pem);
    }
    if cfg.certificate.Some? {
      var ref := cfg.certificate.value;
      if ref.secret !in store {
        return Some(CertificateMissing), null;
      }
      var certKey := if ref.certKey == "" then "tls.crt" else ref.certKey;
      var keyKey := if ref.keyKey == "" then "tls.key" else ref.keyKey;
      var cert, key := Field(store[ref.secret], certKey), Field(store[ref.secret], keyKey);
      if cert == "" {
        return Some(CertificateKeyMissing(certKey)), null;
      }
      if key == "" {
        return Some(CertificateKeyMissing(keyKey)), null;
      }
      if !lib.keyPair(cert, key) {
        return Some(CertificateInvalid), null;
      }
      built.certificates := [(cert, key)];
    }
    return None, built;
  }
}
