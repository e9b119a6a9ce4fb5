/**
 The canonical encodings behind endpoint identity. The logical encoding leaves out the credential, the Reality short
 ID and the obfuscation password; the private one covers everything.
 */
module Identities {
  import opened Wrappers
  import opened Encoding
  import opened Configurations

  function Version(c: Configuration): (v: int)
    ensures 1 <= v <= 3
  {
    if c.advanced.Some? || c.transport.advanced.Some? then 3
    else if c.protocol == VMess || c.protocol == Shadowsocks || c.transport.webSocketHost != [] then 2
    else 1
  }

  function Domain(version: int, private: bool): Text {
    Ascii(if private then "egressfox.connection/v" else "egressfox.endpoint/v") + [0x30 + version % 10]
  }

  lemma DomainInjective(v: int, p: bool, w: int, q: bool)
    requires 1 <= v <= 3 && 1 <= w <= 3
    ensures Domain(v, p) == Domain(w, q) <==> v == w && p == q
  {
    var d, e := Domain(v, p), Domain(w, q);
    assert d[|d| - 1] == 0x30 + v && e[|e| - 1] == 0x30 + w;
    assert |d| == (if p then 23 else 21) && |e| == (if q then 23 else 21);
  }

  // ----- the parts, in order

  function Header(c: Configuration, private: bool): seq<Field> {
    [Str(Domain(Version(c), private)), U8(c.protocol.Code()), U8(c.address.kind.Code()), Str(c.address.host), U16(c.address.port),
     U8(c.transport.kind.Code()), Str(c.transport.WebSocketPath()), Flag(c.tls.enabled), Str(c.tls.serverName),
     Flag(c.tls.insecureSkipVerify)]
  }

  function Second(c: Configuration): seq<Field> {
    if Version(c) >= 2 then [Str(c.transport.webSocketHost), Str(c.cipher)] else []
  }

  function RealityPart(r: Option<Reality>, private: bool): seq<Field> {
    if r.None? then [Flag(false)]
    else [Flag(true)] + if private then [Str(r.value.publicKey), Str(r.value.shortID)] else [Str(r.value.publicKey)]
  }

  function HysteriaPart(h: Option<Hysteria>, private: bool): seq<Field> {
    if h.None? then [Flag(false)]
    else [Flag(true)] + ([U32(h.value.upMbps), U32(h.value.downMbps), Flag(h.value.obfsPassword.Some?)]
                         + if private && h.value.obfsPassword.Some? then [Str(h.value.obfsPassword.value)] else [])
  }

  function TransportPart(c: Configuration): seq<Field> {
    [Str(c.transport.Path()), Str(c.transport.Host()), Str(c.transport.IdentityService()), U8(c.GetFlow().Code())]
  }

  function Third(c: Configuration, private: bool): seq<Field> {
    if Version(c) < 3 then []
    else
      TransportPart(c) + (Counted(c.GetSecurity().alpn) + ([Str(c.GetSecurity().fingerprint)]
      + (RealityPart(c.GetSecurity().reality, private) + HysteriaPart(c.GetHysteria(), private))))
  }

  function CredentialPart(c: Configuration, private: bool): seq<Field>
    requires c.credential.Valid()
  {
    if !private then []
    else if Version(c) < 3 then [U8(c.credential.protocol.Code()), Str(c.credential.secret.value)]
    else [U8(c.credential.protocol.Code()), Str(c.credential.secret.value), Str(c.credential.username)]
  }

  function Ranges(c: Configuration): seq<Text> {
    if c.GetHysteria().Some? then c.GetHysteria().value.portRanges else []
  }

  /** The optional tail with its own tag. */
  function PortPart(c: Configuration): seq<Field> {
    if Version(c) == 3 && Ranges(c) != [] then [Str(Ascii("hysteria2-ports/v1"))] + Counted(Ranges(c)) else []
  }

  function Fields(c: Configuration, private: bool): seq<Field>
    requires c.Valid()
  {
    Header(c, private) + (Second(c) + (Third(c, private) + (CredentialPart(c, private) + PortPart(c))))
  }

  function Canonical(c: Configuration, private: bool): Text
    requires c.Valid()
  {
    Encode(Fields(c, private))
  }

  /** The configuration without what the logical identity leaves out; presence of obfuscation stays. */
  function Redact(c: Configuration): Configuration {
    var advanced :=
      if c.advanced.None? then None
      else
        var s, h := c.advanced.value.security, c.advanced.value.hysteria;
        Some(c.advanced.value.(
             security := if s.reality.None? then s else s.(reality := Some(s.reality.value.(shortID := []))),
             hysteria := if h.None? || h.value.obfsPassword.None? then h else Some(h.value.(obfsPassword := Some([])))));
    c.(credential := Credential(c.credential.protocol, None, []), advanced := advanced)
  }

  function Seen(c: Configuration, private: bool): Configuration {
    if private then c else Redact(c)
  }

  // ----- the fields fit their widths

  lemma FieldsFit(c: Configuration, private: bool)
    requires Built(c)
    ensures AllFit(Fields(c, private))
  {
    HeaderFits(c, private);
    SecondFits(c, private);
    ThirdFits(c, private);
    PortsFit(c);
    FitAppends(CredentialPart(c, private), PortPart(c));
    FitAppends(Third(c, private), CredentialPart(c, private) + PortPart(c));
    FitAppends(Second(c), Third(c, private) + (CredentialPart(c, private) + PortPart(c)));
    FitAppends(Header(c, private), Second(c) + (Third(c, private) + (CredentialPart(c, private) + PortPart(c))));
  }

  lemma FitAppends(fs: seq<Field>, gs: seq<Field>)
    requires AllFit(fs) && AllFit(gs)
    ensures AllFit(fs + gs)
  {
  }

  lemma HeaderFits(c: Configuration, private: bool)
    requires Built(c)
    ensures AllFit(Header(c, private))
  {
    var h := Header(c, private);
    assert |Domain(Version(c), private)| <= 23;
    assert h[0].Fits() && h[1].Fits() && h[2].Fits() && h[3].Fits() && h[4].Fits();
    assert h[5].Fits() && h[6].Fits() && h[7].Fits() && h[8].Fits() && h[9].Fits();
  }

  lemma SecondFits(c: Configuration, private: bool)
    requires Built(c)
    ensures AllFit(Second(c)) && AllFit(CredentialPart(c, private))
  {
    assert |c.cipher| < 0x100;
  }

  lemma PortsFit(c: Configuration)
    requires Built(c)
    ensures AllFit(PortPart(c))
  {
    if c.GetHysteria().Some? {
      CountedFits(Ranges(c));
    }
  }

  lemma CountedFits(texts: seq<Text>)
    requires |texts| <= 16 && forall t :: t in texts ==> Short(t)
    ensures AllFit(Counted(texts))
  {
    forall i | 0 <= i < |Counted(texts)|
      ensures Counted(texts)[i].Fits()
    {
      if i > 0 {
        assert texts[i - 1] in texts;
      }
    }
  }

  lemma ThirdPartsFit(c: Configuration, private: bool)
    requires Built(c)
    ensures AllFit(TransportPart(c)) && AllFit(Counted(c.GetSecurity().alpn)) && AllFit([Str(c.GetSecurity().fingerprint)])
    ensures AllFit(RealityPart(c.GetSecurity().reality, private)) && AllFit(HysteriaPart(c.GetHysteria(), private))
  {
    CountedFits(c.GetSecurity().alpn);
    OptionsFit(c, private);
  }

  lemma OptionsFit(c: Configuration, private: bool)
    requires Built(c)
    ensures AllFit(RealityPart(c.GetSecurity().reality, private)) && AllFit(HysteriaPart(c.GetHysteria(), private))
  {
  }

  lemma ThirdFits(c: Configuration, private: bool)
    requires Built(c)
    ensures AllFit(Third(c, private))
  {
    var s := c.GetSecurity();
    ThirdPartsFit(c, private);
    var tail := RealityPart(s.reality, private) + HysteriaPart(c.GetHysteria(), private);
    FitAppends(RealityPart(s.reality, private), HysteriaPart(c.GetHysteria(), private));
    FitAppends([Str(s.fingerprint)], tail);
    FitAppends(Counted(s.alpn), [Str(s.fingerprint)] + tail);
    FitAppends(TransportPart(c), Counted(s.alpn) + ([Str(s.fingerprint)] + tail));
  }

  // ----- each part is self-delimiting and says what it encodes

  lemma HeaderSays(a: Configuration, b: Configuration, p: bool)
    ensures Delimited(Header(a, p), Header(b, p))
    ensures Header(a, p) == Header(b, p) <==>
            Version(a) == Version(b) && a.protocol == b.protocol && a.address.kind == b.address.kind
            && a.address.host == b.address.host && a.address.port == b.address.port && a.transport.kind == b.transport.kind
            && a.transport.WebSocketPath() == b.transport.WebSocketPath() && a.tls == b.tls
  {
    FixedLayout(Header(a, p), Header(b, p));
    DomainInjective(Version(a), p, Version(b), p);
    if Header(a, p) == Header(b, p) {
      forall i | 0 <= i < 10
        ensures Header(a, p)[i] == Header(b, p)[i]
      {
      }
      CodesInjective(a, b);
    }
  }

  lemma CodesInjective(a: Configuration, b: Configuration)
    ensures a.protocol.Code() == b.protocol.Code() ==> a.protocol == b.protocol
    ensures a.address.kind.Code() == b.address.kind.Code() ==> a.address.kind == b.address.kind
    ensures a.transport.kind.Code() == b.transport.kind.Code() ==> a.transport.kind == b.transport.kind
    ensures a.GetFlow().Code() == b.GetFlow().Code() ==> a.GetFlow() == b.GetFlow()
  {
  }

  lemma SecondSays(a: Configuration, b: Configuration)
    requires Version(a) == Version(b)
    ensures Delimited(Second(a), Second(b))
    ensures Version(a) >= 2 ==>
              (Second(a) == Second(b) <==> a.transport.webSocketHost == b.transport.webSocketHost && a.cipher == b.cipher)
  {
    FixedLayout(Second(a), Second(b));
    if Version(a) >= 2 && Second(a) == Second(b) {
      assert Second(a)[0] == Second(b)[0] && Second(a)[1] == Second(b)[1];
    }
  }

  lemma TransportPartSays(a: Configuration, b: Configuration)
    ensures Delimited(TransportPart(a), TransportPart(b))
    ensures TransportPart(a) == TransportPart(b) <==>
            a.transport.Path() == b.transport.Path() && a.transport.Host() == b.transport.Host()
            && a.transport.IdentityService() == b.transport.IdentityService() && a.GetFlow() == b.GetFlow()
  {
    var x, y := TransportPart(a), TransportPart(b);
    FixedLayout(x, y);
    if x == y {
      assert x[0] == y[0] && x[1] == y[1] && x[2] == y[2] && x[3] == y[3];
      CodesInjective(a, b);
    }
  }

  ghost predicate SameReality(x: Option<Reality>, y: Option<Reality>, p: bool) {
    && x.Some? == y.Some?
    && (x.Some? ==> x.value.publicKey == y.value.publicKey && (p ==> x.value.shortID == y.value.shortID))
  }

  lemma RealitySays(x: Option<Reality>, y: Option<Reality>, p: bool)
    ensures Delimited(RealityPart(x, p), RealityPart(y, p))
    ensures RealityPart(x, p) == RealityPart(y, p) <==> SameReality(x, y, p)
  {
    var u, v := RealityPart(x, p), RealityPart(y, p);
    assert u[0] == Flag(x.Some?) && v[0] == Flag(y.Some?);
    if x.Some? == y.Some? {
      FixedLayout(u, v);
      if u == v && x.Some? {
        assert u[1] == v[1] && (p ==> u[2] == v[2]);
      }
    }
  }

  ghost predicate SameHysteria(x: Option<Hysteria>, y: Option<Hysteria>, p: bool) {
    && x.Some? == y.Some?
    && (x.Some? ==>
          && x.value.upMbps == y.value.upMbps && x.value.downMbps == y.value.downMbps
          && x.value.obfsPassword.Some? == y.value.obfsPassword.Some?
          && (p ==> x.value.obfsPassword == y.value.obfsPassword))
  }

  function Speeds(h: Hysteria): seq<Field> { [U32(h.upMbps), U32(h.downMbps), Flag(h.obfsPassword.Some?)] }

  function Password(h: Hysteria, p: bool): seq<Field> {
    if p && h.obfsPassword.Some? then [Str(h.obfsPassword.value)] else []
  }

  lemma SpeedsSay(g: Hysteria, h: Hysteria, p: bool)
    ensures Delimited(Speeds(g) + Password(g, p), Speeds(h) + Password(h, p))
    ensures Speeds(g) + Password(g, p) == Speeds(h) + Password(h, p) <==> SameHysteria(Some(g), Some(h), p)
  {
    var u, v := Speeds(g), Speeds(h);
    FixedLayout(u, v);
    if u == v {
      assert u[0] == v[0] && u[1] == v[1] && u[2] == v[2];
      FixedLayout(Password(g, p), Password(h, p));
    }
    DelimitedAppends(u, v, Password(g, p), Password(h, p));
    if Password(g, p) == Password(h, p) && p && g.obfsPassword.Some? && h.obfsPassword.Some? {
      assert Password(g, p)[0] == Password(h, p)[0];
    }
  }

  lemma HysteriaSays(x: Option<Hysteria>, y: Option<Hysteria>, p: bool)
    ensures Delimited(HysteriaPart(x, p), HysteriaPart(y, p))
    ensures HysteriaPart(x, p) == HysteriaPart(y, p) <==> SameHysteria(x, y, p)
  {
    var u, v := HysteriaPart(x, p), HysteriaPart(y, p);
    assert u[0] == Flag(x.Some?) && v[0] == Flag(y.Some?);
    if x.Some? && y.Some? {
      SpeedsSay(x.value, y.value, p);
      FixedLayout([Flag(true)], [Flag(true)]);
      assert u == [Flag(true)] + (Speeds(x.value) + Password(x.value, p));
      assert v == [Flag(true)] + (Speeds(y.value) + Password(y.value, p));
      DelimitedAppends([Flag(true)], [Flag(true)], Speeds(x.value) + Password(x.value, p), Speeds(y.value) + Password(y.value, p));
    } else if x.None? && y.None? {
      FixedLayout(u, v);
    }
  }

  ghost predicate SameThird(a: Configuration, b: Configuration, p: bool) {
    && a.transport.Path() == b.transport.Path() && a.transport.Host() == b.transport.Host()
    && a.transport.IdentityService() == b.transport.IdentityService() && a.GetFlow() == b.GetFlow()
    && a.GetSecurity().alpn == b.GetSecurity().alpn && a.GetSecurity().fingerprint == b.GetSecurity().fingerprint
    && SameReality(a.GetSecurity().reality, b.GetSecurity().reality, p)
    && SameHysteria(a.GetHysteria(), b.GetHysteria(), p)
  }

  lemma ThirdSays(a: Configuration, b: Configuration, p: bool)
    requires Version(a) == Version(b)
    ensures Delimited(Third(a, p), Third(b, p))
    ensures Version(a) == 3 ==> (Third(a, p) == Third(b, p) <==> SameThird(a, b, p))
  {
    if Version(a) == 3 {
      var s, t := a.GetSecurity(), b.GetSecurity();
      var r0, r1 := RealityPart(s.reality, p), RealityPart(t.reality, p);
      var h0, h1 := HysteriaPart(a.GetHysteria(), p), HysteriaPart(b.GetHysteria(), p);
      var f0, f1 := [Str(s.fingerprint)], [Str(t.fingerprint)];
      var c0, c1 := Counted(s.alpn), Counted(t.alpn);
      RealitySays(s.reality, t.reality, p);
      HysteriaSays(a.GetHysteria(), b.GetHysteria(), p);
      DelimitedAppends(r0, r1, h0, h1);
      FixedLayout(f0, f1);
      assert f0 == f1 <==> f0[0] == f1[0];
      DelimitedAppends(f0, f1, r0 + h0, r1 + h1);
      CountedDelimited(s.alpn, t.alpn);
      DelimitedAppends(c0, c1, f0 + (r0 + h0), f1 + (r1 + h1));
      TransportPartSays(a, b);
      DelimitedAppends(TransportPart(a), TransportPart(b), c0 + (f0 + (r0 + h0)), c1 + (f1 + (r1 + h1)));
    }
  }

  ghost predicate SameCredential(a: Configuration, b: Configuration, p: bool) {
    p ==> a.credential.protocol == b.credential.protocol && a.credential.secret == b.credential.secret
          && (Version(a) == 3 ==> a.credential.username == b.credential.username)
  }

  lemma CredentialSays(a: Configuration, b: Configuration, p: bool)
    requires Version(a) == Version(b) && a.credential.Valid() && b.credential.Valid()
    ensures Delimited(CredentialPart(a, p), CredentialPart(b, p))
    ensures CredentialPart(a, p) == CredentialPart(b, p) <==> SameCredential(a, b, p)
  {
    var u, v := CredentialPart(a, p), CredentialPart(b, p);
    FixedLayout(u, v);
    if u == v && p {
      assert u[0] == v[0] && u[1] == v[1] && (Version(a) == 3 ==> u[2] == v[2]);
    }
  }

  lemma PortsSay(a: Configuration, b: Configuration)
    requires Version(a) == Version(b)
    ensures Aligned(PortPart(a), PortPart(b))
    ensures Version(a) == 3 ==> (PortPart(a) == PortPart(b) <==> Ranges(a) == Ranges(b))
  {
    if PortPart(a) != [] && PortPart(b) != [] {
      var tag := [Str(Ascii("hysteria2-ports/v1"))];
      FixedLayout(tag, tag);
      CountedDelimited(Ranges(a), Ranges(b));
      DelimitedAppends(tag, tag, Counted(Ranges(a)), Counted(Ranges(b)));
    }
  }

  // ----- whole encodings

  ghost predicate SameFields(a: Configuration, b: Configuration, p: bool)
    requires a.Valid() && b.Valid()
  {
    && Header(a, p) == Header(b, p) && Second(a) == Second(b) && Third(a, p) == Third(b, p)
    && CredentialPart(a, p) == CredentialPart(b, p) && PortPart(a) == PortPart(b)
  }

  lemma FieldsAligned(a: Configuration, b: Configuration, p: bool)
    requires a.Valid() && b.Valid()
    ensures Aligned(Fields(a, p), Fields(b, p))
    ensures Fields(a, p) == Fields(b, p) <==> SameFields(a, b, p)
  {
    HeaderSays(a, b, p);
    if Header(a, p) == Header(b, p) {
      RestAligned(a, b, p);
    }
    AlignedAppends(Header(a, p), Header(b, p), Rest(a, p), Rest(b, p));
    if Fields(a, p) == Fields(b, p) {
      AppendsSplit(Header(a, p), Header(b, p), Rest(a, p), Rest(b, p));
    }
  }

  function Rest(c: Configuration, p: bool): seq<Field>
    requires c.Valid()
  {
    Second(c) + (Third(c, p) + (CredentialPart(c, p) + PortPart(c)))
  }

  lemma RestAligned(a: Configuration, b: Configuration, p: bool)
    requires a.Valid() && b.Valid() && Version(a) == Version(b)
    ensures Aligned(Rest(a, p), Rest(b, p))
    ensures Rest(a, p) == Rest(b, p) ==>
              Second(a) == Second(b) && Third(a, p) == Third(b, p)
              && CredentialPart(a, p) == CredentialPart(b, p) && PortPart(a) == PortPart(b)
  {
    var c0, c1, t0, t1 := CredentialPart(a, p), CredentialPart(b, p), PortPart(a), PortPart(b);
    PortsSay(a, b);
    CredentialSays(a, b, p);
    AlignedAppends(c0, c1, t0, t1);
    ThirdSays(a, b, p);
    AlignedAppends(Third(a, p), Third(b, p), c0 + t0, c1 + t1);
    SecondSays(a, b);
    AlignedAppends(Second(a), Second(b), Third(a, p) + (c0 + t0), Third(b, p) + (c1 + t1));
    if Rest(a, p) == Rest(b, p) {
      AppendsSplit(Second(a), Second(b), Third(a, p) + (c0 + t0), Third(b, p) + (c1 + t1));
      AppendsSplit(Third(a, p), Third(b, p), c0 + t0, c1 + t1);
      AppendsSplit(c0, c1, t0, t1);
    }
  }

  /** The fields of a built configuration determine it, up to what the encoding leaves out. */
  lemma FieldsDetermine(a: Configuration, b: Configuration, p: bool)
    requires Built(a) && Built(b) && SameFields(a, b, p)
    ensures Seen(a, p) == Seen(b, p)
  {
    HeaderSays(a, b, p);
    SecondSays(a, b);
    ThirdSays(a, b, p);
    CredentialSays(a, b, p);
    PortsSay(a, b);
    TransportDetermined(a, b, p);
    CipherDetermined(a, b);
    if p {
      CredentialDetermined(a, b);
    }
    AdvancedDetermined(a, b, p);
  }

  lemma TransportDetermined(a: Configuration, b: Configuration, p: bool)
    requires Built(a) && Built(b) && Version(a) == Version(b) && a.transport.kind == b.transport.kind
    requires a.transport.WebSocketPath() == b.transport.WebSocketPath()
    requires Version(a) >= 2 ==> a.transport.webSocketHost == b.transport.webSocketHost
    requires Version(a) == 3 ==> SameThird(a, b, p)
    ensures a.transport == b.transport
  {
  }

  lemma CipherDetermined(a: Configuration, b: Configuration)
    requires Built(a) && Built(b) && Version(a) == Version(b) && a.protocol == b.protocol
    requires Version(a) >= 2 ==> a.cipher == b.cipher
    ensures a.cipher == b.cipher
  {
  }

  lemma CredentialDetermined(a: Configuration, b: Configuration)
    requires Built(a) && Built(b) && Version(a) == Version(b) && SameCredential(a, b, true)
    ensures a.credential == b.credential
  {
  }

  /** Versions one and two have no advanced part; version three always has one. */
  lemma AdvancedDetermined(a: Configuration, b: Configuration, p: bool)
    requires Built(a) && Built(b) && Version(a) == Version(b)
    requires Version(a) == 3 ==> SameThird(a, b, p) && Ranges(a) == Ranges(b)
    ensures Seen(a, p).advanced == Seen(b, p).advanced
  {
  }

  lemma SeenDetermines(a: Configuration, b: Configuration, p: bool)
    requires Built(a) && Built(b) && Seen(a, p) == Seen(b, p)
    ensures SameFields(a, b, p)
  {
    if p {
    } else {
      RedactedAgree(a, b);
      LogicalPartsDetermine(a, b);
    }
  }

  /** What two configurations with one redacted form share. */
  lemma RedactedAgree(a: Configuration, b: Configuration)
    requires Redact(a) == Redact(b)
    ensures a.protocol == b.protocol && a.address == b.address && a.transport == b.transport && a.tls == b.tls && a.cipher == b.cipher
    ensures Version(a) == Version(b) && SameThird(a, b, false) && Ranges(a) == Ranges(b)
  {
    assert a.advanced.Some? == b.advanced.Some?;
  }

  lemma LogicalPartsDetermine(a: Configuration, b: Configuration)
    requires Built(a) && Built(b)
    requires a.protocol == b.protocol && a.address == b.address && a.transport == b.transport && a.tls == b.tls && a.cipher == b.cipher
    requires Version(a) == Version(b) && SameThird(a, b, false) && Ranges(a) == Ranges(b)
    ensures SameFields(a, b, false)
  {
    HeaderSays(a, b, false);
    SecondSays(a, b);
    ThirdSays(a, b, false);
    PortsSay(a, b);
  }

  /** Two built configurations have one encoding exactly when they agree in all that the encoding covers. */
  lemma EncodingIsExact(a: Configuration, b: Configuration, p: bool)
    requires Built(a) && Built(b)
    ensures Canonical(a, p) == Canonical(b, p) <==> Seen(a, p) == Seen(b, p)
  {
    FieldsAligned(a, b, p);
    FieldsFit(a, p);
    FieldsFit(b, p);
    if Canonical(a, p) == Canonical(b, p) {
      EncodeInjective(Fields(a, p), Fields(b, p));
      FieldsDetermine(a, b, p);
    }
    if Seen(a, p) == Seen(b, p) {
      SeenDetermines(a, b, p);
    }
  }

  /** The private encodings are equal exactly for equivalent configurations. */
  lemma PrivateIsExact(a: Configuration, b: Configuration)
    requires Built(a) && Built(b)
    ensures Canonical(a, true) == Canonical(b, true) <==> a.Equivalent(b)
  {
    EncodingIsExact(a, b, true);
    EquivalentIsEqual(a, b);
  }

  /** The logical encodings are equal exactly for configurations that differ at most in what Redact removes. */
  lemma LogicalIsExact(a: Configuration, b: Configuration)
    requires Built(a) && Built(b)
    ensures Canonical(a, false) == Canonical(b, false) <==> Redact(a) == Redact(b)
  {
    EncodingIsExact(a, b, false);
  }

  /** No logical encoding is also a private one, of any configuration. */
  lemma DomainsAreSeparate(a: Configuration, b: Configuration)
    requires Built(a) && Built(b)
    ensures Canonical(a, false) != Canonical(b, true)
  {
    var f, g := Fields(a, false), Fields(b, true);
    assert f[0] == Header(a, false)[0] && g[0] == Header(b, true)[0];
    FieldsFit(a, false);
    FieldsFit(b, true);
    assert f[0] in f && g[0] in g;
    DomainInjective(Version(a), false, Version(b), true);
    if Canonical(a, false) == Canonical(b, true) {
      FieldPrefix(f[0], g[0], Encode(f[1..]), Encode(g[1..]));
    }
  }

  // ----- identities

  /** The ID and the revision; an invalid configuration has neither. */
  datatype Identity = Identity(id: Text, revision: Option<Text>) {
    predicate Equal(other: Identity) {
      if id != other.id || revision.None? || other.revision.None?
      then id == other.id && revision.None? && other.revision.None?
      else revision == other.revision
    }

    predicate SameEndpoint(other: Identity) { id == other.id }
  }

  /** A collision-free digest with its textual form for IDs. */
  ghost predicate Injective(f: Text -> Text) {
    forall x, y :: f(x) == f(y) ==> x == y
  }

  function IdOf(c: Configuration, digest: Text -> Text, text: Text -> Text): Text
    requires c.Valid()
  {
    Tag(Version(c)) + text(digest(Canonical(c, false)))
  }

  function Tag(version: int): Text
    requires 1 <= version <= 3
  {
    Ascii("ef") + [0x30 + version] + Ascii("_")
  }

  function IdentityOf(c: Configuration, digest: Text -> Text, text: Text -> Text): Identity {
    if !c.Valid() then Identity([], None) else Identity(IdOf(c, digest, text), Some(digest(Canonical(c, true))))
  }

  lemma TagSplits(v: int, w: int, x: Text, y: Text)
    requires 1 <= v <= 3 && 1 <= w <= 3 && Tag(v) + x == Tag(w) + y
    ensures v == w && x == y
  {
    SplitAt(Tag(v), x, Tag(w), y);
    assert Tag(v)[2] == Tag(w)[2];
  }

  /** Two built configurations name one endpoint exactly when they differ at most in what Redact removes. */
  lemma SameEndpointIff(a: Configuration, b: Configuration, digest: Text -> Text, text: Text -> Text)
    requires Built(a) && Built(b) && Injective(digest) && Injective(text)
    ensures IdentityOf(a, digest, text).SameEndpoint(IdentityOf(b, digest, text)) <==> Redact(a) == Redact(b)
  {
    LogicalIsExact(a, b);
    if IdOf(a, digest, text) == IdOf(b, digest, text) {
      TagSplits(Version(a), Version(b), text(digest(Canonical(a, false))), text(digest(Canonical(b, false))));
    }
    if Redact(a) == Redact(b) {
      SeenDetermines(a, b, false);
      HeaderSays(a, b, false);
    }
  }

  /** Identities of built configurations are equal exactly when the configurations are equivalent. */
  lemma IdentityIsExact(a: Configuration, b: Configuration, digest: Text -> Text, text: Text -> Text)
    requires Built(a) && Built(b) && Injective(digest) && Injective(text)
    ensures IdentityOf(a, digest, text).Equal(IdentityOf(b, digest, text)) <==> a.Equivalent(b)
  {
    PrivateIsExact(a, b);
    EquivalentIsEqual(a, b);
  }
}
