/**
 Endpoint connection configurations as values: validity, the constructors with their legacy funnel, and equality.
 A Go string is its bytes; a nil reference is None.
 */
module Configurations {
  import opened Wrappers
  import opened Encoding

  datatype Protocol = UnknownProtocol | VLESS | Trojan | VMess | Shadowsocks | SOCKS5 | HTTPProxy | Hysteria2 {
    function Code(): (n: int)
      ensures 0 <= n <= 7
    {
      match this
      case UnknownProtocol => 0
      case VLESS => 1
      case Trojan => 2
      case VMess => 3
      case Shadowsocks => 4
      case SOCKS5 => 5
      case HTTPProxy => 6
      case Hysteria2 => 7
    }

    predicate IsProxy() { SOCKS5? || HTTPProxy? }
  }

  datatype HostKind = InvalidHost | DNS | IPv4 | IPv6 {
    function Code(): (n: int)
      ensures 0 <= n <= 3
    {
      match this
      case InvalidHost => 0
      case DNS => 1
      case IPv4 => 2
      case IPv6 => 3
    }
  }

  datatype TransportKind = UnknownTransport | TCP | WebSocket | HTTP2 | HTTPUpgrade | GRPC | QUIC | XHTTP {
    function Code(): (n: int)
      ensures 0 <= n <= 7
    {
      match this
      case UnknownTransport => 0
      case TCP => 1
      case WebSocket => 2
      case HTTP2 => 3
      case HTTPUpgrade => 4
      case GRPC => 5
      case QUIC => 6
      case XHTTP => 7
    }
  }

  datatype Flow = NoFlow | Vision {
    function Code(): (n: int)
      ensures 0 <= n <= 1
    {
      if NoFlow? then 0 else 1
    }
  }

  datatype Address = Address(host: Text, port: int, kind: HostKind) {
    predicate Valid() { host != [] && port != 0 && kind != InvalidHost }
  }

  datatype Credential = Credential(protocol: Protocol, secret: Option<Text>, username: Text) {
    predicate Valid() {
      && secret.Some?
      && if protocol.IsProxy() then (username == []) == (secret.value == [])
         else secret.value != [] && protocol != UnknownProtocol
    }

    predicate Equal(other: Credential) {
      && Valid() && other.Valid() && protocol == other.protocol
      && |secret.value| == |other.secret.value| && |username| == |other.username|
      && secret.value == other.secret.value && username == other.username
    }
  }

  datatype AdvancedTransport = AdvancedTransport(path: Text, host: Text, service: Text, mode: Text) {
    predicate Valid(kind: TransportKind) {
      match kind
      case HTTP2 => path != [] && service == [] && mode == []
      case HTTPUpgrade => path != [] && service == [] && mode == []
      case GRPC => service != [] && path == [] && host == [] && mode == []
      case XHTTP => path != [] && service == [] && mode in XHTTP_MODES
      case QUIC => path == [] && host == [] && service == []
      case _ => false
    }
  }

  function Ascii(s: string): (t: Text)
    ensures |t| == |s|
    ensures forall i :: 0 <= i < |s| ==> t[i] == s[i] as int % 0x100
  {
    seq(|s|, i requires 0 <= i < |s| => s[i] as int % 0x100)
  }

  const XHTTP_MODES: seq<Text> := [Ascii("stream-one"), Ascii("stream-up"), Ascii("packet-up")]
  const VMESS_METHODS: seq<Text> := [Ascii("auto"), Ascii("aes-128-gcm"), Ascii("chacha20-poly1305"), Ascii("none")]
  const SHADOWSOCKS_METHODS: seq<Text> := [Ascii("aes-128-gcm"), Ascii("aes-256-gcm"), Ascii("chacha20-ietf-poly1305")]

  datatype Transport = Transport(kind: TransportKind, webSocketPath: Option<Text>, webSocketHost: Text,
                                 advanced: Option<AdvancedTransport>)
  {
    predicate Valid() {
      || (kind == TCP && webSocketPath.None? && webSocketHost == [] && advanced.None?)
      || (kind == WebSocket && webSocketPath.Some? && webSocketPath.value != [] && advanced.None?)
      || (advanced.Some? && webSocketPath.None? && webSocketHost == [] && advanced.value.Valid(kind))
    }

    function WebSocketPath(): Text { if webSocketPath.None? then [] else webSocketPath.value }

    function Path(): Text { if advanced.None? then [] else advanced.value.path }

    function Host(): Text { if advanced.None? then [] else advanced.value.host }

    /** The service slot of the encoding carries the XHTTP mode. */
    function IdentityService(): Text {
      if advanced.None? then [] else if kind == XHTTP then advanced.value.mode else advanced.value.service
    }

    predicate Equal(other: Transport) {
      && kind == other.kind && WebSocketPath() == other.WebSocketPath()
      && webSocketHost == other.webSocketHost && advanced == other.advanced
    }
  }

  datatype TLS = TLS(enabled: bool, serverName: Text, insecureSkipVerify: bool)

  const DISABLED_TLS := TLS(false, [], false)
  const TCP_TRANSPORT := Transport(TCP, None, [], None)

  datatype Reality = Reality(publicKey: Text, shortID: Text)

  datatype Security = Security(alpn: seq<Text>, fingerprint: Text, reality: Option<Reality>) {
    predicate Plain() { alpn == [] && fingerprint == [] && reality.None? }

    predicate Equal(other: Security) {
      && fingerprint == other.fingerprint && |alpn| == |other.alpn| && reality.Some? == other.reality.Some?
      && (forall i :: 0 <= i < |alpn| ==> alpn[i] == other.alpn[i])
      && (reality.None? || reality == other.reality)
    }
  }

  datatype Hysteria = Hysteria(upMbps: int, downMbps: int, obfsPassword: Option<Text>, portRanges: seq<Text>) {
    function Password(): Text { if obfsPassword.None? then [] else obfsPassword.value }

    predicate Equal(other: Hysteria) {
      && upMbps == other.upMbps && downMbps == other.downMbps && Password() == other.Password()
      && |portRanges| == |other.portRanges| && (forall i :: 0 <= i < |portRanges| ==> portRanges[i] == other.portRanges[i])
    }
  }

  datatype Advanced = Advanced(flow: Flow, security: Security, hysteria: Option<Hysteria>) {
    predicate Valid(c: Configuration) {
      && (flow == NoFlow || (c.protocol == VLESS && c.transport.kind == TCP && c.tls.enabled))
      && (security.Plain() || c.tls.enabled)
      && (security.reality.None? || (c.protocol == VLESS && !c.tls.insecureSkipVerify && c.tls.serverName != [] && c.transport.kind == TCP))
      && !(c.transport.kind == HTTP2 && !c.tls.enabled)
      && !(c.protocol == Trojan && c.transport.kind == HTTP2)
      && !(c.transport.kind == XHTTP && c.protocol != VLESS)
      && if c.protocol.IsProxy()
         then c.transport.kind == TCP && (c.protocol == HTTPProxy || !c.tls.enabled) && flow == NoFlow && hysteria.None? && security.Plain()
         else if c.protocol == Hysteria2
         then c.transport.kind == QUIC && hysteria.Some? && flow == NoFlow && security.reality.None?
         else hysteria.None? && c.transport.kind != QUIC
    }

    predicate Equal(other: Advanced) {
      && flow == other.flow && security.Equal(other.security) && hysteria.Some? == other.hysteria.Some?
      && (hysteria.None? || hysteria.value.Equal(other.hysteria.value))
    }
  }

  datatype Configuration = Configuration(protocol: Protocol, address: Address, credential: Credential,
                                         transport: Transport, tls: TLS, cipher: Text, advanced: Option<Advanced>)
  {
    predicate Valid() {
      && protocol != UnknownProtocol
      && address.Valid() && credential.Valid() && credential.protocol == protocol && transport.Valid()
      && !((protocol == Trojan || protocol == Hysteria2) && !tls.enabled)
      && !(protocol == Shadowsocks && (transport.kind != TCP || tls.enabled))
      && !((protocol == VMess || protocol == Shadowsocks) && cipher == [])
      && (if advanced.Some? then advanced.value.Valid(this)
          else !protocol.IsProxy() && protocol != Hysteria2 && transport.advanced.None?)
      && (!tls.enabled || tls.serverName != [])
    }

    /** Complete equality, including credentials. */
    predicate Equivalent(other: Configuration) {
      && protocol == other.protocol && address == other.address && credential.Equal(other.credential)
      && transport.Equal(other.transport) && tls == other.tls && cipher == other.cipher
      && advanced.Some? == other.advanced.Some? && (advanced.None? || advanced.value.Equal(other.advanced.value))
    }

    function GetFlow(): Flow { if advanced.None? then NoFlow else advanced.value.flow }

    function GetSecurity(): Security { if advanced.None? then Security([], [], None) else advanced.value.security }

    function GetHysteria(): Option<Hysteria> { if advanced.None? then None else advanced.value.hysteria }
  }

  // ----- what the component constructors establish

  const SHORT: int := 0x1_0000

  predicate Short(t: Text) { |t| < SHORT }

  predicate GoodAddress(a: Address) { a.Valid() && 1 <= a.port <= 65535 && Short(a.host) }

  /** Only a proxy credential has a username; secrets are bounded. */
  predicate GoodCredential(c: Credential) {
    c.Valid() && Short(c.secret.value) && Short(c.username) && (!c.protocol.IsProxy() ==> c.username == [])
  }

  predicate GoodTransport(t: Transport) {
    && t.Valid() && Short(t.WebSocketPath()) && Short(t.webSocketHost)
    && (t.advanced.Some? ==>
          var a := t.advanced.value;
          Short(a.path) && Short(a.host) && Short(a.service) && Short(a.mode) && (t.kind == QUIC ==> a.mode == []))
  }

  /** A disabled TLS value carries no other setting. */
  predicate GoodTLS(t: TLS) { Short(t.serverName) && (!t.enabled ==> t == DISABLED_TLS) }

  predicate GoodSecurity(s: Security) {
    && |s.alpn| <= 8 && (forall t :: t in s.alpn ==> Short(t)) && Short(s.fingerprint)
    && (s.reality.Some? ==> Short(s.reality.value.publicKey) && Short(s.reality.value.shortID))
  }

  predicate GoodHysteria(h: Hysteria) {
    && 0 <= h.upMbps <= 100_000 && 0 <= h.downMbps <= 100_000
    && (h.obfsPassword.Some? ==> h.obfsPassword.value != [] && Short(h.obfsPassword.value))
    && |h.portRanges| <= 16 && (forall t :: t in h.portRanges ==> Short(t))
  }

  /** The configurations the constructors build. */
  predicate Built(c: Configuration) {
    && c.Valid()
    && GoodAddress(c.address) && GoodCredential(c.credential) && GoodTransport(c.transport) && GoodTLS(c.tls)
    && (if c.protocol == VMess then c.cipher in VMESS_METHODS
        else if c.protocol == Shadowsocks then c.cipher in SHADOWSOCKS_METHODS && c.advanced.None?
        else c.cipher == [])
    && (c.advanced.Some? ==>
          && GoodSecurity(c.advanced.value.security)
          && (c.advanced.value.hysteria.Some? ==> GoodHysteria(c.advanced.value.hysteria.value))
          && (c.protocol.IsProxy() || c.protocol == Hysteria2 || Extends(c)))
  }

  /** The configuration uses an option that the original constructors cannot express. */
  predicate Extends(c: Configuration) {
    c.transport.advanced.Some? || c.GetFlow() != NoFlow || c.GetHysteria().Some? || !c.GetSecurity().Plain()
  }

  // ----- constructors

  datatype Rejection = UnsupportedProtocol | BadAddress | BadCredential | BadTransport | TLSRequired | BadMethod
                     | BadFields | Contradictory

  function Named(tls: TLS, address: Address): TLS {
    if tls.enabled && tls.serverName == [] then tls.(serverName := address.host) else tls
  }

  function NewConfiguration(protocol: Protocol, address: Address, credential: Credential, transport: Transport, tls: TLS): Result<Configuration, Rejection> {
    if protocol != VLESS && protocol != Trojan then Err(UnsupportedProtocol)
    else if !address.Valid() then Err(BadAddress)
    else if !credential.Valid() || credential.protocol != protocol then Err(BadCredential)
    else if !transport.Valid() then Err(BadTransport)
    else if protocol == Trojan && !tls.enabled then Err(TLSRequired)
    else
      var c := Configuration(protocol, address, credential, transport, Named(tls, address), [], None);
      if c.Valid() then Ok(c) else Err(Contradictory)
  }

  function NewVMess(address: Address, credential: Credential, transport: Transport, tls: TLS, cipher: Text): Result<Configuration, Rejection> {
    if cipher !in VMESS_METHODS then Err(BadMethod)
    else NewAdditional(VMess, address, credential, transport, tls, cipher)
  }

  function NewShadowsocks(address: Address, credential: Credential, cipher: Text): Result<Configuration, Rejection> {
    if cipher !in SHADOWSOCKS_METHODS then Err(BadMethod)
    else NewAdditional(Shadowsocks, address, credential, TCP_TRANSPORT, DISABLED_TLS, cipher)
  }

  function NewAdditional(protocol: Protocol, address: Address, credential: Credential, transport: Transport, tls: TLS, cipher: Text): Result<Configuration, Rejection> {
    if !address.Valid() || !credential.Valid() || credential.protocol != protocol || !transport.Valid() then Err(BadFields)
    else
      var c := Configuration(protocol, address, credential, transport, Named(tls, address), cipher, None);
      if c.Valid() then Ok(c) else Err(Contradictory)
  }

  /** The extended constructors; an old connection keeps its original representation. */
  function Extended(protocol: Protocol, address: Address, credential: Credential, transport: Transport, tls: TLS,
                    security: Security, flow: Flow, hysteria: Option<Hysteria>, cipher: Text): Result<Configuration, Rejection>
  {
    if !address.Valid() || !credential.Valid() || credential.protocol != protocol || !transport.Valid() then Err(BadFields)
    else if transport.advanced.None? && flow == NoFlow && hysteria.None? && security.Plain() && (protocol == VLESS || protocol == Trojan)
    then NewConfiguration(protocol, address, credential, transport, tls)
    else if transport.advanced.None? && flow == NoFlow && hysteria.None? && security.Plain() && protocol == VMess
    then NewVMess(address, credential, transport, tls, cipher)
    else
      var c := Configuration(protocol, address, credential, transport, Named(tls, address), cipher, Some(Advanced(flow, security, hysteria)));
      if c.Valid() then Ok(c) else Err(Contradictory)
  }

  function NewExtended(protocol: Protocol, address: Address, credential: Credential, transport: Transport, tls: TLS,
                       security: Security, flow: Flow, hysteria: Option<Hysteria>): Result<Configuration, Rejection>
  {
    Extended(protocol, address, credential, transport, tls, security, flow, hysteria, [])
  }

  function NewExtendedVMess(address: Address, credential: Credential, transport: Transport, tls: TLS, security: Security,
                            cipher: Text): Result<Configuration, Rejection>
  {
    if cipher !in VMESS_METHODS then Err(BadMethod)
    else Extended(VMess, address, credential, transport, tls, security, NoFlow, None, cipher)
  }

  ghost predicate GoodParts(address: Address, credential: Credential, transport: Transport, tls: TLS) {
    && (address.Valid() ==> GoodAddress(address))
    && (credential.Valid() ==> GoodCredential(credential))
    && (transport.Valid() ==> GoodTransport(transport))
    && GoodTLS(tls)
  }

  lemma OriginalConstructorsBuild(protocol: Protocol, address: Address, credential: Credential, transport: Transport, tls: TLS, cipher: Text)
    requires GoodParts(address, credential, transport, tls)
    ensures var c := NewConfiguration(protocol, address, credential, transport, tls); c.Ok? ==> Built(c.value)
    ensures var c := NewVMess(address, credential, transport, tls, cipher); c.Ok? ==> Built(c.value)
    ensures var c := NewShadowsocks(address, credential, cipher); c.Ok? ==> Built(c.value)
  {
  }

  /** The branch of the extended constructors that builds an advanced configuration. */
  lemma AdvancedBuilds(c: Configuration)
    requires c.Valid() && c.advanced.Some? && GoodParts(c.address, c.credential, c.transport, c.tls)
    requires GoodSecurity(c.GetSecurity()) && (c.GetHysteria().Some? ==> GoodHysteria(c.GetHysteria().value))
    requires if c.protocol == VMess then c.cipher in VMESS_METHODS else c.cipher == []
    requires c.protocol == VLESS || c.protocol == Trojan || c.protocol == VMess ==> Extends(c)
    ensures Built(c)
  {
  }

  /** What the extended constructors build: an original configuration, or all of the arguments. */
  lemma ExtendedParts(protocol: Protocol, address: Address, credential: Credential, transport: Transport, tls: TLS,
                      security: Security, flow: Flow, hysteria: Option<Hysteria>, cipher: Text)
    requires Extended(protocol, address, credential, transport, tls, security, flow, hysteria, cipher).Ok?
    ensures var c := Extended(protocol, address, credential, transport, tls, security, flow, hysteria, cipher);
            if c.value.advanced.Some? then
              && c.value == Configuration(protocol, address, credential, transport, Named(tls, address), cipher, Some(Advanced(flow, security, hysteria)))
              && c.value.Valid() && address.Valid()
              && (protocol == VLESS || protocol == Trojan || protocol == VMess ==> Extends(c.value))
            else
              c == NewConfiguration(protocol, address, credential, transport, tls) || c == NewVMess(address, credential, transport, tls, cipher)
  {
  }

  lemma ExtendedBuilds(protocol: Protocol, address: Address, credential: Credential, transport: Transport, tls: TLS,
                       security: Security, flow: Flow, hysteria: Option<Hysteria>, cipher: Text)
    requires GoodParts(address, credential, transport, tls) && GoodSecurity(security)
    requires hysteria.Some? ==> GoodHysteria(hysteria.value)
    requires if protocol == VMess then cipher in VMESS_METHODS else cipher == []
    ensures var c := Extended(protocol, address, credential, transport, tls, security, flow, hysteria, cipher); c.Ok? ==> Built(c.value)
  {
    var c := Extended(protocol, address, credential, transport, tls, security, flow, hysteria, cipher);
    if c.Ok? {
      ExtendedParts(protocol, address, credential, transport, tls, security, flow, hysteria, cipher);
      if c.value.advanced.Some? {
        AdvancedBuilds(c.value);
      } else {
        OriginalConstructorsBuild(protocol, address, credential, transport, tls, cipher);
      }
    }
  }

  lemma ExtendedConstructorsBuild(protocol: Protocol, address: Address, credential: Credential, transport: Transport, tls: TLS,
                                  security: Security, flow: Flow, hysteria: Option<Hysteria>, cipher: Text)
    requires GoodParts(address, credential, transport, tls) && GoodSecurity(security)
    requires hysteria.Some? ==> GoodHysteria(hysteria.value)
    ensures var c := NewExtended(protocol, address, credential, transport, tls, security, flow, hysteria); c.Ok? ==> Built(c.value)
    ensures var c := NewExtendedVMess(address, credential, transport, tls, security, cipher); c.Ok? ==> Built(c.value)
  {
    if protocol != VMess {
      ExtendedBuilds(protocol, address, credential, transport, tls, security, flow, hysteria, []);
    } else {
      EmptyCipher(address, credential, transport, tls, security, flow, hysteria);
    }
    if cipher in VMESS_METHODS {
      ExtendedBuilds(VMess, address, credential, transport, tls, security, NoFlow, None, cipher);
    }
  }

  /** VMess needs a payload cipher, which the plain extended constructor does not take. */
  lemma EmptyCipher(address: Address, credential: Credential, transport: Transport, tls: TLS, security: Security, flow: Flow, hysteria: Option<Hysteria>)
    ensures NewExtended(VMess, address, credential, transport, tls, security, flow, hysteria).Err?
  {
  }

  /** Equivalence of built configurations is equality. */
  lemma EquivalentIsEqual(a: Configuration, b: Configuration)
    requires Built(a) && Built(b)
    ensures a.Equivalent(b) <==> a == b
  {
    if a.Equivalent(b) {
      assert a.credential == b.credential;
      TransportEqual(a.transport, b.transport);
      if a.advanced.Some? {
        AdvancedEqual(a.advanced.value, b.advanced.value);
      }
    }
  }

  lemma TransportEqual(t: Transport, u: Transport)
    requires t.Valid() && u.Valid() && t.Equal(u)
    ensures t == u
  {
  }

  lemma AdvancedEqual(x: Advanced, y: Advanced)
    requires x.Equal(y)
    requires x.hysteria.Some? ==> GoodHysteria(x.hysteria.value)
    requires y.hysteria.Some? ==> GoodHysteria(y.hysteria.value)
    ensures x == y
  {
    assert x.security.alpn == y.security.alpn;
    if x.hysteria.Some? {
      assert x.hysteria.value.portRanges == y.hysteria.value.portRanges;
    }
  }

  /**
   The legacy funnel: built configurations that agree in everything their accessors reveal are the same value, so one
   connection never has two representations.
   */
  lemma OneRepresentation(a: Configuration, b: Configuration)
    requires Built(a) && Built(b)
    requires a.protocol == b.protocol && a.address == b.address && a.credential == b.credential
    requires a.transport == b.transport && a.tls == b.tls && a.cipher == b.cipher
    requires a.GetFlow() == b.GetFlow() && a.GetSecurity() == b.GetSecurity() && a.GetHysteria() == b.GetHysteria()
    ensures a == b
  {
  }
}
