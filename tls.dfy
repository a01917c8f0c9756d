/** The TLS policy of the server: the cipher-suite identifiers it names, the
    preference order it offers them in, and its base TLS configuration. */
module Tls {

  import opened Results

  newtype uint16 = x: int | 0 <= x < 0x1_0000

  newtype byte = x: int | 0 <= x < 0x100

  /** The suites the server defines itself, with their IANA code points. */
  const TLS_DHE_RSA_WITH_AES_128_CBC_SHA: uint16 := 0x0033
  const TLS_DHE_RSA_WITH_AES_256_CBC_SHA: uint16 := 0x0039
  const TLS_RSA_WITH_AES_128_GCM_SHA256: uint16 := 0x009c
  const TLS_RSA_WITH_AES_256_GCM_SHA384: uint16 := 0x009d
  const TLS_DHE_RSA_WITH_AES_128_GCM_SHA256: uint16 := 0x009e
  const TLS_DHE_RSA_WITH_AES_256_GCM_SHA384: uint16 := 0x009f
  const TLS_ECDHE_ECDSA_WITH_AES_128_CBC_SHA: uint16 := 0xc009
  const TLS_ECDHE_ECDSA_WITH_AES_256_CBC_SHA: uint16 := 0xc00a
  const TLS_ECDHE_ECDSA_WITH_AES_128_GCM_SHA256: uint16 := 0xc02b
  const TLS_ECDHE_ECDSA_WITH_AES_256_GCM_SHA384: uint16 := 0xc02c
  const TLS_ECDHE_RSA_WITH_AES_128_GCM_SHA256: uint16 := 0xc02f
  const TLS_ECDHE_RSA_WITH_AES_256_GCM_SHA384: uint16 := 0xc030

  /** The suites the list takes from Go's crypto/tls package. */
  const TLS_RSA_WITH_RC4_128_SHA: uint16 := 0x0005
  const TLS_RSA_WITH_AES_128_CBC_SHA: uint16 := 0x002f
  const TLS_RSA_WITH_AES_256_CBC_SHA: uint16 := 0x0035
  const TLS_ECDHE_RSA_WITH_RC4_128_SHA: uint16 := 0xc011
  const TLS_ECDHE_RSA_WITH_AES_128_CBC_SHA: uint16 := 0xc013
  const TLS_ECDHE_RSA_WITH_AES_256_CBC_SHA: uint16 := 0xc014

  datatype KeyExchange = EcdheEcdsa | EcdheRsa | DheRsa | Rsa

  datatype BulkCipher = Aes256Gcm | Aes128Gcm | Rc4 | Aes256Cbc | Aes128Cbc

  datatype Suite = Suite(kex: KeyExchange, cipher: BulkCipher)

  /** The entries of the IANA TLS Cipher Suite registry that the server uses
      (RFC 5246 appendix A.5, RFC 5288 section 3, RFC 4492 section 6,
      RFC 5289 section 3.2), read as key exchange and bulk cipher. */
  function Registered(id: uint16): (s: Option<Suite>)
    ensures s.Some? <==> id in {0x0005, 0x002f, 0x0033, 0x0035, 0x0039, 0x009c, 0x009d, 0x009e, 0x009f,
                                0xc009, 0xc00a, 0xc011, 0xc013, 0xc014, 0xc02b, 0xc02c, 0xc02f, 0xc030}
  {
    match id
    case 0x0005 => Some(Suite(Rsa, Rc4))
    case 0x002f => Some(Suite(Rsa, Aes128Cbc))
    case 0x0033 => Some(Suite(DheRsa, Aes128Cbc))
    case 0x0035 => Some(Suite(Rsa, Aes256Cbc))
    case 0x0039 => Some(Suite(DheRsa, Aes256Cbc))
    case 0x009c => Some(Suite(Rsa, Aes128Gcm))
    case 0x009d => Some(Suite(Rsa, Aes256Gcm))
    case 0x009e => Some(Suite(DheRsa, Aes128Gcm))
    case 0x009f => Some(Suite(DheRsa, Aes256Gcm))
    case 0xc009 => Some(Suite(EcdheEcdsa, Aes128Cbc))
    case 0xc00a => Some(Suite(EcdheEcdsa, Aes256Cbc))
    case 0xc011 => Some(Suite(EcdheRsa, Rc4))
    case 0xc013 => Some(Suite(EcdheRsa, Aes128Cbc))
    case 0xc014 => Some(Suite(EcdheRsa, Aes256Cbc))
    case 0xc02b => Some(Suite(EcdheEcdsa, Aes128Gcm))
    case 0xc02c => Some(Suite(EcdheEcdsa, Aes256Gcm))
    case 0xc02f => Some(Suite(EcdheRsa, Aes128Gcm))
    case 0xc030 => Some(Suite(EcdheRsa, Aes256Gcm))
    case _ => None
  }

  /** Rank of a key exchange in the server's preference: elliptic-curve
      Diffie-Hellman before finite-field Diffie-Hellman before plain RSA key
      transport, and ECDSA before RSA authentication. */
  function KexRank(k: KeyExchange): nat
  {
    match k
    case EcdheEcdsa => 0
    case EcdheRsa => 1
    case DheRsa => 2
    case Rsa => 3
  }

  /** Rank of a bulk cipher within one key-exchange group: AES-GCM first,
      then RC4, then AES-CBC; 256-bit keys before 128-bit keys. */
  function CipherRank(c: BulkCipher): nat
  {
    match c
    case Aes256Gcm => 0
    case Aes128Gcm => 1
    case Rc4 => 2
    case Aes256Cbc => 3
    case Aes128Cbc => 4
  }

  /** The lexicographic preference of a suite: key exchange first, then cipher. */
  function Preference(s: Suite): nat
  {
    KexRank(s.kex) * 5 + CipherRank(s.cipher)
  }

  predicate ForwardSecret(s: Suite)
  {
    s.kex != Rsa
  }

  datatype Mode = Gcm | Stream | Cbc

  function ModeOf(c: BulkCipher): Mode
  {
    match c
    case Aes256Gcm => Gcm
    case Aes128Gcm => Gcm
    case Rc4 => Stream
    case Aes256Cbc => Cbc
    case Aes128Cbc => Cbc
  }

  function KeyBits(c: BulkCipher): nat
  {
    match c
    case Aes256Gcm => 256
    case Aes128Gcm => 128
    case Rc4 => 128
    case Aes256Cbc => 256
    case Aes128Cbc => 128
  }

  predicate AllRegistered(ids: seq<uint16>)
  {
    forall i :: 0 <= i < |ids| ==> Registered(ids[i]).Some?
  }

  /** Every suite in `ids` is strictly preferred to every suite after it. */
  predicate StrictlyPreferred(ids: seq<uint16>)
    requires AllRegistered(ids)
  {
    forall i, j :: 0 <= i < j < |ids| ==> Preference(Registered(ids[i]).value) < Preference(Registered(ids[j]).value)
  }

  /** The order in which the base configuration offers its suites. */
  function CipherSuites(): seq<uint16>
  {
    [
      TLS_ECDHE_ECDSA_WITH_AES_256_GCM_SHA384,
      TLS_ECDHE_ECDSA_WITH_AES_128_GCM_SHA256,
      TLS_ECDHE_ECDSA_WITH_AES_256_CBC_SHA,
      TLS_ECDHE_ECDSA_WITH_AES_128_CBC_SHA,

      TLS_ECDHE_RSA_WITH_AES_256_GCM_SHA384,
      TLS_ECDHE_RSA_WITH_AES_128_GCM_SHA256,
      TLS_ECDHE_RSA_WITH_RC4_128_SHA,
      TLS_ECDHE_RSA_WITH_AES_256_CBC_SHA,
      TLS_ECDHE_RSA_WITH_AES_128_CBC_SHA,

      TLS_DHE_RSA_WITH_AES_256_GCM_SHA384,
      TLS_DHE_RSA_WITH_AES_128_GCM_SHA256,
      TLS_DHE_RSA_WITH_AES_256_CBC_SHA,
      TLS_DHE_RSA_WITH_AES_128_CBC_SHA,

      TLS_RSA_WITH_AES_256_GCM_SHA384,
      TLS_RSA_WITH_AES_128_GCM_SHA256,
      TLS_RSA_WITH_RC4_128_SHA,
      TLS_RSA_WITH_AES_256_CBC_SHA,
      TLS_RSA_WITH_AES_128_CBC_SHA
    ]
  }

  /** Each constant's code point is the registry entry its name spells out. */
  lemma ConstantsMatchRegistry()
    ensures Registered(TLS_DHE_RSA_WITH_AES_128_CBC_SHA) == Some(Suite(DheRsa, Aes128Cbc))
    ensures Registered(TLS_DHE_RSA_WITH_AES_256_CBC_SHA) == Some(Suite(DheRsa, Aes256Cbc))
    ensures Registered(TLS_RSA_WITH_AES_128_GCM_SHA256) == Some(Suite(Rsa, Aes128Gcm))
    ensures Registered(TLS_RSA_WITH_AES_256_GCM_SHA384) == Some(Suite(Rsa, Aes256Gcm))
    ensures Registered(TLS_DHE_RSA_WITH_AES_128_GCM_SHA256) == Some(Suite(DheRsa, Aes128Gcm))
    ensures Registered(TLS_DHE_RSA_WITH_AES_256_GCM_SHA384) == Some(Suite(DheRsa, Aes256Gcm))
    ensures Registered(TLS_ECDHE_ECDSA_WITH_AES_128_CBC_SHA) == Some(Suite(EcdheEcdsa, Aes128Cbc))
    ensures Registered(TLS_ECDHE_ECDSA_WITH_AES_256_CBC_SHA) == Some(Suite(EcdheEcdsa, Aes256Cbc))
    ensures Registered(TLS_ECDHE_ECDSA_WITH_AES_128_GCM_SHA256) == Some(Suite(EcdheEcdsa, Aes128Gcm))
    ensures Registered(TLS_ECDHE_ECDSA_WITH_AES_256_GCM_SHA384) == Some(Suite(EcdheEcdsa, Aes256Gcm))
    ensures Registered(TLS_ECDHE_RSA_WITH_AES_128_GCM_SHA256) == Some(Suite(EcdheRsa, Aes128Gcm))
    ensures Registered(TLS_ECDHE_RSA_WITH_AES_256_GCM_SHA384) == Some(Suite(EcdheRsa, Aes256Gcm))
    ensures Registered(TLS_RSA_WITH_RC4_128_SHA) == Some(Suite(Rsa, Rc4))
    ensures Registered(TLS_RSA_WITH_AES_128_CBC_SHA) == Some(Suite(Rsa, Aes128Cbc))
    ensures Registered(TLS_RSA_WITH_AES_256_CBC_SHA) == Some(Suite(Rsa, Aes256Cbc))
    ensures Registered(TLS_ECDHE_RSA_WITH_RC4_128_SHA) == Some(Suite(EcdheRsa, Rc4))
    ensures Registered(TLS_ECDHE_RSA_WITH_AES_128_CBC_SHA) == Some(Suite(EcdheRsa, Aes128Cbc))
    ensures Registered(TLS_ECDHE_RSA_WITH_AES_256_CBC_SHA) == Some(Suite(EcdheRsa, Aes256Cbc))
  {
  }

  /** Strict preference between neighbours extends to every pair. */
  lemma {:induction false} NeighboursSuffice(ids: seq<uint16>)
    requires AllRegistered(ids)
    requires forall i :: 0 <= i < |ids| - 1 ==>
      Preference(Registered(ids[i]).value) < Preference(Registered(ids[i + 1]).value)
    ensures StrictlyPreferred(ids)
  {
    if |ids| > 1 {
      NeighboursSuffice(ids[1..]);
      forall j | 1 <= j < |ids|
        ensures Preference(Registered(ids[0]).value) < Preference(Registered(ids[j]).value)
      {
        assert ids[j] == ids[1..][j - 1];
        if j > 1 {
          assert ids[1] == ids[1..][0];
        }
      }
      forall i, j | 0 <= i < j < |ids|
        ensures Preference(Registered(ids[i]).value) < Preference(Registered(ids[j]).value)
      {
        if i > 0 {
          assert ids[i] == ids[1..][i - 1] && ids[j] == ids[1..][j - 1];
        }
      }
    }
  }

  /** The suite list is registered throughout and strictly ordered by
      preference: groups by key exchange, and within a group by cipher. */
  lemma CipherSuitesOrdered()
    ensures AllRegistered(CipherSuites()) && StrictlyPreferred(CipherSuites())
  {
    NeighboursSuffice(CipherSuites());
  }

  /** The list holds eighteen distinct identifiers. */
  lemma CipherSuitesDistinct()
    ensures |CipherSuites()| == 18
    ensures forall i, j :: 0 <= i < j < |CipherSuites()| ==> CipherSuites()[i] != CipherSuites()[j]
  {
    CipherSuitesOrdered();
  }

  /** Forward-secret suites come first; the groups run ECDHE-ECDSA, ECDHE-RSA,
      DHE-RSA, RSA; within a group GCM precedes the other modes, RC4 precedes
      CBC, and for one mode the 256-bit suite precedes the 128-bit one. */
  lemma CipherSuitesGrouped()
    ensures var ids := CipherSuites();
      AllRegistered(ids) &&
      forall i, j :: 0 <= i < j < |ids| ==>
        var a, b := Registered(ids[i]).value, Registered(ids[j]).value;
        && (ForwardSecret(b) ==> ForwardSecret(a))
        && KexRank(a.kex) <= KexRank(b.kex)
        && (a.kex == b.kex && ModeOf(b.cipher) == Gcm ==> ModeOf(a.cipher) == Gcm)
        && (a.kex == b.kex && ModeOf(b.cipher) == Stream ==> ModeOf(a.cipher) != Cbc)
        && (a.kex == b.kex && ModeOf(a.cipher) == ModeOf(b.cipher) ==> KeyBits(a.cipher) > KeyBits(b.cipher))
  {
    CipherSuitesOrdered();
  }

  /** A parsed certificate chain with its private key, as the TLS library
      hands it over; its contents are opaque here. */
  datatype Certificate = Certificate(chain: seq<seq<byte>>, privateKey: seq<byte>)

  /** A session-ticket key: exactly 32 bytes. */
  type TicketKey = k: seq<byte> | |k| == 32 witness seq(32, i => 0)

  /** The fields of a TLS configuration that the server sets. */
  datatype TlsConfig = TlsConfig(
    certificates: seq<Certificate>,
    nextProtos: seq<string>,
    cipherSuites: seq<uint16>,
    preferServerCipherSuites: bool,
    sessionTicketsDisabled: bool)

  /** The base configuration: no certificates yet, HTTP/1.1 as the only
      application protocol, the eighteen suites in strict preference order,
      the server's preference enforced and session tickets enabled. */
  function InitialTlsConfiguration(): (c: TlsConfig)
    ensures c.certificates == [] && c.nextProtos == ["http/1.1"]
    ensures c.preferServerCipherSuites && !c.sessionTicketsDisabled
    ensures |c.cipherSuites| == 18 && AllRegistered(c.cipherSuites) && StrictlyPreferred(c.cipherSuites)
  {
    CipherSuitesOrdered();
    TlsConfig(
      certificates := [],
      nextProtos := ["http/1.1"],
      cipherSuites := CipherSuites(),
      preferServerCipherSuites := true,
      sessionTicketsDisabled := false)
  }
}
