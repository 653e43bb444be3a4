/** The content-store client of src/lib/pinata.ts: the gateway URL of a content id and
    the three pinning calls, each behind the same API-key guard. A call's effect is
    described by the request it sends (if any) and the result it returns; the pinning
    service's answer is a parameter. */
module Pinata {
  import opened Wrappers

  const GatewayPrefix := "https://gateway.pinata.cloud/ipfs/"
  const ApiUrl := "https://api.pinata.cloud/pinning"

  /** The two credentials, each already defaulted to "" when unset. */
  datatype Config = Config(apiKey: string, apiSecret: string)

  predicate Configured(c: Config) {
    c.apiKey != "" && c.apiSecret != ""
  }

  datatype PinError = NotConfigured | RequestFailed(message: string)

  /** Metadata as the service stores it: a name and string key/values. */
  datatype Metadata = Metadata(name: string, keyvalues: map<string, string>)
  datatype PinRow = PinRow(ipfsPinHash: string, metadata: Metadata)

  /** The requests the client sends. An upload carries the file name, the metadata
      (name, category, upload instant) and the CID version it asks for. */
  datatype Request =
    | PinFile(fileName: string, name: string, category: string, uploadDate: int, cidVersion: nat)
    | PinList(hashContains: string)
    | Unpin(cid: string)

  /** What a call did: the request it sent, if any, and what it returned. */
  datatype Exchange<T> = Exchange(sent: Option<Request>, result: Result<T, PinError>)

  /** `getIpfsUrl`. */
  function IpfsUrl(cid: string): (url: string)
    ensures |url| == |GatewayPrefix| + |cid|
    ensures url[..|GatewayPrefix|] == GatewayPrefix && url[|GatewayPrefix|..] == cid
  {
    GatewayPrefix + cid
  }

  /** The content id of a gateway URL, if it is one. */
  function CidOf(url: string): Option<string> {
    if |url| >= |GatewayPrefix| && url[..|GatewayPrefix|] == GatewayPrefix
    then Some(url[|GatewayPrefix|..]) else None
  }

  /** Stripping the gateway prefix gives the content id back, so distinct ids have distinct URLs. */
  lemma IpfsUrlRoundTrip(cid: string, other: string)
    ensures CidOf(IpfsUrl(cid)) == Some(cid)
    ensures cid != other ==> IpfsUrl(cid) != IpfsUrl(other)
  {
    if IpfsUrl(cid) == IpfsUrl(other) {
      assert CidOf(IpfsUrl(cid)) == CidOf(IpfsUrl(other));
    }
  }

  /** `uploadToPinata(file, name, category)` at instant `now`; `response` is the service's
      `IpfsHash` or the error it threw. */
  function Upload(c: Config, fileName: string, name: string, category: string, now: int,
                  response: Result<string, string>): (x: Exchange<string>)
    ensures !Configured(c) ==> x.sent.None? && x.result == Err(NotConfigured)
    ensures Configured(c) ==> x.sent == Some(PinFile(fileName, name, category, now, 0))
    ensures Configured(c) && response.Ok? ==> x.result == Ok(response.value)
    ensures Configured(c) && response.Err? ==> x.result == Err(RequestFailed(response.error))
  {
    if !Configured(c) then Exchange(None, Err(NotConfigured))
    else
      var req := PinFile(fileName, name, category, now, 0);
      match response
      case Ok(hash) => Exchange(Some(req), Ok(hash))
      case Err(e) => Exchange(Some(req), Err(RequestFailed(e)))
  }

  /** `getMetadata(cid)`: the metadata of the first listed pin, or `null` when none is listed. */
  function GetMetadata(c: Config, cid: string, response: Result<seq<PinRow>, string>): (x: Exchange<Option<Metadata>>)
    ensures !Configured(c) ==> x.sent.None? && x.result == Err(NotConfigured)
    ensures Configured(c) ==> x.sent == Some(PinList(cid))
    ensures Configured(c) && response.Ok? && |response.value| > 0 ==>
              x.result == Ok(Some(response.value[0].metadata))
    ensures Configured(c) && response.Ok? && |response.value| == 0 ==> x.result == Ok(None)
    ensures Configured(c) && response.Err? ==> x.result == Err(RequestFailed(response.error))
  {
    if !Configured(c) then Exchange(None, Err(NotConfigured))
    else
      match response
      case Ok(rows) => Exchange(Some(PinList(cid)), Ok(if |rows| > 0 then Some(rows[0].metadata) else None))
      case Err(e) => Exchange(Some(PinList(cid)), Err(RequestFailed(e)))
  }

  /** `unpinFile(cid)`; `response` is the service's reply body or the error it threw. */
  function UnpinFile(c: Config, cid: string, response: Result<string, string>): (x: Exchange<string>)
    ensures !Configured(c) ==> x.sent.None? && x.result == Err(NotConfigured)
    ensures Configured(c) ==> x.sent == Some(Unpin(cid))
    ensures Configured(c) ==> (x.result.Ok? <==> response.Ok?)
    ensures Configured(c) && response.Ok? ==> x.result == Ok(response.value)
    ensures Configured(c) && response.Err? ==> x.result == Err(RequestFailed(response.error))
  {
    if !Configured(c) then Exchange(None, Err(NotConfigured))
    else
      match response
      case Ok(body) => Exchange(Some(Unpin(cid)), Ok(body))
      case Err(e) => Exchange(Some(Unpin(cid)), Err(RequestFailed(e)))
  }

  /** Without both credentials no call reaches the network, whatever the service would answer. */
  lemma GuardIgnoresService(c: Config, cid: string, fileName: string, name: string, category: string, now: int,
                            r1: Result<string, string>, r2: Result<string, string>,
                            l1: Result<seq<PinRow>, string>, l2: Result<seq<PinRow>, string>)
    requires !Configured(c)
    ensures Upload(c, fileName, name, category, now, r1) == Upload(c, fileName, name, category, now, r2)
    ensures GetMetadata(c, cid, l1) == GetMetadata(c, cid, l2)
    ensures UnpinFile(c, cid, r1) == UnpinFile(c, cid, r2)
  {
  }
}
