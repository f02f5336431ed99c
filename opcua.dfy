/**
 * The pure decisions of the OPC UA path: which discovered endpoint the
 * service connects to, and when the status of the node read counts as a
 * failure. Discovery, sessions and the read itself are inputs of the model.
 */
module OpcUa {

  import opened Wrappers

  /** `MessageSecurityMode`: `SecurityNone` is the SDK's `MessageSecurityMode.None`. */
  datatype MessageSecurityMode = Invalid | SecurityNone | Sign | SignAndEncrypt

  /** `UserTokenType`, the kind of identity an endpoint accepts. */
  datatype UserTokenType = Anonymous | UserName | Certificate | IssuedToken

  datatype UserTokenPolicy = UserTokenPolicy(tokenType: UserTokenType)

  /** The part of an endpoint description the selection looks at. */
  datatype EndpointDescription = EndpointDescription(
    endpointUrl: string,
    securityMode: MessageSecurityMode,
    userIdentityTokens: seq<UserTokenPolicy>)

  /** `UserIdentityTokens.Any(t => t.TokenType == UserTokenType.Anonymous)`. */
  function AnyAnonymous(tokens: seq<UserTokenPolicy>): (found: bool)
    ensures found <==> exists i :: 0 <= i < |tokens| && tokens[i].tokenType == Anonymous
  {
    if tokens == [] then false
    else if tokens[0].tokenType == Anonymous then true
    else
      var found := AnyAnonymous(tokens[1..]);
      assert forall i :: 0 < i < |tokens| ==> tokens[i] == tokens[1..][i - 1];
      found
  }

  /** The predicate given to `FirstOrDefault`: no security and an anonymous token. */
  predicate Compatible(e: EndpointDescription): (ok: bool)
    ensures ok <==>
      && e.securityMode == SecurityNone
      && exists i :: 0 <= i < |e.userIdentityTokens| && e.userIdentityTokens[i].tokenType == Anonymous
  {
    e.securityMode == SecurityNone && AnyAnonymous(e.userIdentityTokens)
  }

  /**
   * The position `FirstOrDefault` stops at: the first compatible endpoint,
   * or the length of the list when there is none.
   */
  function FirstCompatible(endpoints: seq<EndpointDescription>): (k: nat)
    ensures k <= |endpoints|
    ensures k < |endpoints| ==> Compatible(endpoints[k])
    ensures forall j :: 0 <= j < k ==> !Compatible(endpoints[j])
  {
    if endpoints == [] then 0
    else if Compatible(endpoints[0]) then 0
    else
      var k := FirstCompatible(endpoints[1..]);
      assert forall j :: 0 < j <= k ==> endpoints[j] == endpoints[1..][j - 1];
      k + 1
  }

  /**
   * The endpoint the service opens its session on: the first compatible
   * endpoint in discovery order, or none when no endpoint is compatible.
   */
  function SelectEndpoint(endpoints: seq<EndpointDescription>): (chosen: Option<EndpointDescription>)
    ensures chosen.None? <==> forall j :: 0 <= j < |endpoints| ==> !Compatible(endpoints[j])
    ensures chosen.Some? ==>
      exists k :: 0 <= k < |endpoints| && endpoints[k] == chosen.value && Compatible(endpoints[k])
        && (forall j :: 0 <= j < k ==> !Compatible(endpoints[j]))
  {
    var k := FirstCompatible(endpoints);
    if k < |endpoints| then Some(endpoints[k]) else None
  }

  /** Endpoints that offer security, or only authenticated identities, are never chosen. */
  lemma IncompatibleNeverChosen(endpoints: seq<EndpointDescription>, e: EndpointDescription)
    requires SelectEndpoint(endpoints) == Some(e)
    ensures e.securityMode == SecurityNone
    ensures exists i :: 0 <= i < |e.userIdentityTokens| && e.userIdentityTokens[i].tokenType == Anonymous
  {
  }

  /** Prepending an incompatible endpoint does not change the choice. */
  lemma SkipIncompatible(e: EndpointDescription, rest: seq<EndpointDescription>)
    requires !Compatible(e)
    ensures SelectEndpoint([e] + rest) == SelectEndpoint(rest)
  {
  }

  /** A 32-bit OPC UA status code. */
  type StatusCode = bv32

  /** The severity: the two top bits (0 good, 1 uncertain, 2 bad, 3 reserved). */
  function Severity(code: StatusCode): (s: nat)
    ensures s < 4
  {
    (code >> 30) as nat
  }

  /** `StatusCode.IsBad`: the top bit is set. Uncertain codes are not bad. */
  function IsBad(code: StatusCode): (bad: bool)
    ensures bad <==> Severity(code) >= 2
  {
    code & 0x8000_0000 != 0
  }
}
