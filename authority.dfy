/**
 * The vault's own authority value types: who is asking (a client and the
 * proxy node relaying it) and which group manages a client's mutations,
 * with their lossless conversions into routing's generic `Authority`.
 */
module Authorities {
  import opened Common
  import opened Routing

  /** `ClientAuthority`: a client identity plus the proxy node it is connected through. */
  datatype ClientAuthority = ClientAuthority(clientPubId: PublicKeys, proxyNodeName: XorName)
  {
    /** `name()`: the client's network name, derived from its identity alone. */
    function Name(): (n: XorName)
      ensures n == ToAuthority().clientPubId.xorName
    {
      clientPubId.xorName
    }

    /** `client_key()`: the identity's public signing key. */
    function ClientKey(): (k: PublicSignKey)
      ensures k == ToAuthority().clientPubId.signKey
    {
      clientPubId.signKey
    }

    /** `From<ClientAuthority> for Authority`. */
    function ToAuthority(): (a: Authority)
      ensures a.Client?
      ensures AsClientAuthority(a) == Some(this)
    {
      Authority.Client(clientPubId, proxyNodeName)
    }
  }

  /** Reads a `ClientAuthority` back out of a generic authority, if it is a client one. */
  function AsClientAuthority(a: Authority): (r: Option<ClientAuthority>)
    ensures r.Some? <==> a.Client?
  {
    match a
    case Client(id, proxy) => Some(ClientAuthority(id, proxy))
    case _ => None
  }

  /** `ClientManagerAuthority(XorName)`: the group managing one client's account. */
  datatype ClientManagerAuthority = ClientManagerAuthority(name: XorName)
  {
    /** `name()`: the wrapped address. */
    function Name(): (n: XorName)
      ensures ToAuthority() == Authority.ClientManager(n)
    {
      name
    }

    /** `From<ClientManagerAuthority> for Authority`. */
    function ToAuthority(): (a: Authority)
      ensures a.ClientManager?
      ensures AsClientManagerAuthority(a) == Some(this)
    {
      Authority.ClientManager(name)
    }
  }

  /** Reads a `ClientManagerAuthority` back out of a generic authority, if it is a manager one. */
  function AsClientManagerAuthority(a: Authority): (r: Option<ClientManagerAuthority>)
    ensures r.Some? <==> a.ClientManager?
  {
    match a
    case ClientManager(n) => Some(ClientManagerAuthority(n))
    case _ => None
  }

  /** The name of a client authority depends on its identity only, never on its proxy. */
  lemma ClientNameIgnoresProxy(a: ClientAuthority, b: ClientAuthority)
    requires a.clientPubId == b.clientPubId
    ensures a.Name() == b.Name()
  {
  }

  /** `client_key()` is exactly the identity's public signing key, whatever the proxy. */
  lemma ClientKeyIsSignKey(id: PublicKeys, proxy: XorName)
    ensures ClientAuthority(id, proxy).ClientKey() == id.signKey
  {
  }

  /**
   * Converting a client authority keeps both of its parts: the result is the
   * `Client` variant with the same identity and proxy, and no two distinct
   * client authorities convert to the same authority.
   */
  lemma ClientConversionLossless(a: ClientAuthority, b: ClientAuthority)
    ensures a.ToAuthority() == Authority.Client(a.clientPubId, a.proxyNodeName)
    ensures a.ToAuthority() == b.ToAuthority() ==> a == b
  {
    assert AsClientAuthority(a.ToAuthority()) == Some(a);
    assert AsClientAuthority(b.ToAuthority()) == Some(b);
  }

  /** Every client variant of `Authority` comes from exactly one client authority. */
  lemma ClientConversionOnto(a: Authority)
    requires a.Client?
    ensures AsClientAuthority(a).Some? && AsClientAuthority(a).value.ToAuthority() == a
  {
  }

  /** `name()` of a client manager authority is the wrapped name unchanged. */
  lemma ManagerNameIsWrapped(n: XorName)
    ensures ClientManagerAuthority(n).Name() == n
  {
  }

  /**
   * Converting a client manager authority gives `ClientManager(n)` with `n`
   * its `name()`, and distinct manager authorities stay distinct.
   */
  lemma ManagerConversionLossless(m: ClientManagerAuthority, m': ClientManagerAuthority)
    ensures m.ToAuthority() == Authority.ClientManager(m.Name())
    ensures m.ToAuthority() == m'.ToAuthority() ==> m == m'
  {
    assert AsClientManagerAuthority(m.ToAuthority()) == Some(m);
    assert AsClientManagerAuthority(m'.ToAuthority()) == Some(m');
  }

  /** The two conversions never produce the same authority. */
  lemma ConversionsDisjoint(c: ClientAuthority, m: ClientManagerAuthority)
    ensures c.ToAuthority() != m.ToAuthority()
  {
  }
}
