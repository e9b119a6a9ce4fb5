/** The encoder as it appends to its buffer. `written` lists the fields behind the bytes. */
module IdentityMethods {
  import opened Wrappers
  import opened Encoding
  import opened Configurations
  import opened Identities

  lemma Joined(a: seq<Field>, b: seq<Field>, c: seq<Field>, d: seq<Field>, e: seq<Field>, f: seq<Field>)
    ensures ((((a + b) + c) + d) + e) + f == a + (b + (c + (d + (e + f))))
  {
  }

  ghost function Start(c: Configuration, private: bool): seq<Field> {
    [Str(Domain(Version(c), private)), U8(c.protocol.Code())]
  }

  ghost function Place(c: Configuration): seq<Field> {
    [U8(c.address.kind.Code()), Str(c.address.host), U16(c.address.port)]
  }

  ghost function Link(c: Configuration): seq<Field> { [U8(c.transport.kind.Code()), Str(c.transport.WebSocketPath())] }

  ghost function Secure(c: Configuration): seq<Field> {
    [Flag(c.tls.enabled), Str(c.tls.serverName), Flag(c.tls.insecureSkipVerify)]
  }

  lemma HeaderSplits(c: Configuration, private: bool)
    ensures ((Start(c, private) + Place(c)) + Link(c)) + Secure(c) == Header(c, private)
  {
  }

  class CanonicalEncoder {
    var buffer: Text
    ghost var written: seq<Field>

    ghost predicate Valid()
      reads this
    {
      buffer == Encode(written)
    }

    constructor ()
      ensures Valid() && written == []
    {
      buffer, written := [], [];
    }

    method Append(bytes: Text, ghost field: Field)
      requires Valid() && bytes == field.Bytes()
      modifies this
      ensures Valid() && written == old(written) + [field]
    {
      EncodeAppends(written, [field]);
      assert Encode([field]) == field.Bytes() by {
        assert [field][1..] == [];
      }
      buffer := buffer + bytes;
      written := written + [field];
    }

    method WriteString(value: Text)
      requires Valid()
      modifies this
      ensures Valid() && written == old(written) + [Str(value)]
    {
      Append(Be32(|value|) + value, Str(value));
    }

    method WriteUint8(value: int)
      requires Valid()
      modifies this
      ensures Valid() && written == old(written) + [U8(value)]
    {
      Append([value % 0x100], U8(value));
    }

    method WriteUint16(value: int)
      requires Valid()
      modifies this
      ensures Valid() && written == old(written) + [U16(value)]
    {
      Append(Be16(value), U16(value));
    }

    method WriteUint32(value: int)
      requires Valid()
      modifies this
      ensures Valid() && written == old(written) + [U32(value)]
    {
      Append(Be32(value), U32(value));
    }

    method WriteBool(value: bool)
      requires Valid()
      modifies this
      ensures Valid() && written == old(written) + [Flag(value)]
    {
      WriteUint8(if value then 1 else 0);
    }

    method WriteCounted(values: seq<Text>)
      requires Valid()
      modifies this
      ensures Valid() && written == old(written) + Counted(values)
    {
      ghost var start := written;
      WriteUint8(|values|);
      var i := 0;
      while i < |values|
        invariant 0 <= i <= |values|
        invariant Valid() && written == start + ([U8(|values|)] + Strings(values[..i]))
      {
        WriteString(values[i]);
        assert Strings(values[..i + 1]) == Strings(values[..i]) + [Str(values[i])];
        i := i + 1;
      }
      assert values[..i] == values;
    }

    method WriteStart(c: Configuration, private: bool)
      requires Valid()
      modifies this
      ensures Valid() && written == old(written) + Start(c, private)
    {
      var version3 := c.advanced.Some? || c.transport.advanced.Some?;
      var version2 := version3 || c.protocol == VMess || c.protocol == Shadowsocks || c.transport.webSocketHost != [];
      WriteString(Domain(if version3 then 3 else if version2 then 2 else 1, private));
      WriteUint8(c.protocol.Code());
    }

    method WriteAddress(c: Configuration)
      requires Valid()
      modifies this
      ensures Valid() && written == old(written) + Place(c)
    {
      WriteUint8(c.address.kind.Code());
      WriteString(c.address.host);
      WriteUint16(c.address.port);
    }

    method WriteLink(c: Configuration)
      requires Valid()
      modifies this
      ensures Valid() && written == old(written) + Link(c)
    {
      WriteUint8(c.transport.kind.Code());
      WriteString(c.transport.WebSocketPath());
    }

    method WriteTLS(c: Configuration)
      requires Valid()
      modifies this
      ensures Valid() && written == old(written) + Secure(c)
    {
      WriteBool(c.tls.enabled);
      WriteString(c.tls.serverName);
      WriteBool(c.tls.insecureSkipVerify);
    }

    method WriteReality(reality: Option<Reality>, private: bool)
      requires Valid()
      modifies this
      ensures Valid() && written == old(written) + RealityPart(reality, private)
    {
      if reality.None? {
        WriteBool(false);
      } else {
        WriteBool(true);
        WriteString(reality.value.publicKey);
        if private {
          WriteString(reality.value.shortID);
        }
      }
    }

    method WriteHysteria(hysteria: Option<Hysteria>, private: bool)
      requires Valid()
      modifies this
      ensures Valid() && written == old(written) + HysteriaPart(hysteria, private)
    {
      if hysteria.None? {
        WriteBool(false);
      } else {
        WriteBool(true);
        WriteUint32(hysteria.value.upMbps);
        WriteUint32(hysteria.value.downMbps);
        WriteBool(hysteria.value.obfsPassword.Some?);
        if private && hysteria.value.obfsPassword.Some? {
          WriteString(hysteria.value.obfsPassword.value);
        }
      }
    }

    method WriteTransport(c: Configuration)
      requires Valid()
      modifies this
      ensures Valid() && written == old(written) + TransportPart(c)
    {
      WriteString(c.transport.Path());
      WriteString(c.transport.Host());
      WriteString(c.transport.IdentityService());
      WriteUint8(c.GetFlow().Code());
    }

    method WriteThird(c: Configuration, private: bool)
      requires Valid() && Version(c) == 3
      modifies this
      ensures Valid() && written == old(written) + Third(c, private)
    {
      ghost var start := written;
      var security := c.GetSecurity();
      WriteTransport(c);
      WriteCounted(security.alpn);
      WriteString(security.fingerprint);
      WriteReality(security.reality, private);
      WriteHysteria(c.GetHysteria(), private);
      Joined(start, TransportPart(c), Counted(security.alpn), [Str(security.fingerprint)],
             RealityPart(security.reality, private), HysteriaPart(c.GetHysteria(), private));
    }

    method WriteCredential(c: Configuration, private: bool)
      requires Valid() && c.credential.Valid()
      modifies this
      ensures Valid() && written == old(written) + CredentialPart(c, private)
    {
      if private {
        WriteUint8(c.credential.protocol.Code());
        WriteString(c.credential.secret.value);
        if Version(c) == 3 {
          WriteString(c.credential.username);
        }
      }
    }

    method WriteSecond(c: Configuration)
      requires Valid()
      modifies this
      ensures Valid() && written == old(written) + Second(c)
    {
      if Version(c) >= 2 {
        WriteString(c.transport.webSocketHost);
        WriteString(c.cipher);
      }
    }

    method WritePorts(c: Configuration)
      requires Valid()
      modifies this
      ensures Valid() && written == old(written) + PortPart(c)
    {
      var ranges := Ranges(c);
      if Version(c) == 3 && ranges != [] {
        WriteString(Ascii("hysteria2-ports/v1"));
        WriteCounted(ranges);
      }
    }

    method WriteRest(c: Configuration, private: bool)
      requires Valid() && c.Valid()
      modifies this
      ensures Valid() && written == old(written) + (Second(c) + (Third(c, private) + (CredentialPart(c, private) + PortPart(c))))
    {
      ghost var start := written;
      WriteSecond(c);
      if Version(c) == 3 {
        WriteThird(c, private);
      }
      WriteCredential(c, private);
      WritePorts(c);
      Joined(start, Second(c), Third(c, private), CredentialPart(c, private), PortPart(c), []);
      assert PortPart(c) + [] == PortPart(c);
    }
  }

  /** One buffer, written from front to back. */
  method CanonicalConfiguration(c: Configuration, private: bool) returns (r: Text)
    requires c.Valid()
    ensures r == Canonical(c, private)
  {
    var encoder := new CanonicalEncoder();
    encoder.WriteStart(c, private);
    encoder.WriteAddress(c);
    encoder.WriteLink(c);
    encoder.WriteTLS(c);
    HeaderSplits(c, private);
    assert [] + Start(c, private) == Start(c, private);
    assert encoder.written == Header(c, private);
    encoder.WriteRest(c, private);
    return encoder.buffer;
  }
}
