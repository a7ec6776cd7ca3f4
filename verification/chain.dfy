/** The network registry: the `Network` record with its token lists, the
    `init` step that turns configured token data into token instances, the
    index of networks by chain id, and the Berachain configuration. */
module Chain {
  import opened Wrappers

  /** The chain description of the Ethereum client library (only its id is read). */
  datatype Chain = Chain(id: int)

  /** Token data as configured (a partial token) or, once `isInstance`
      holds, a token instance produced by the token registry. */
  datatype TokenInfo = TokenInfo(
    address: Option<string>,
    name: Option<string>,
    symbol: Option<string>,
    decimals: Option<nat>,
    isInstance: bool)

  /** One entry of `validatedTokensInfo`, kept in insertion order. */
  datatype Entry = Entry(key: string, token: TokenInfo)

  datatype RaisedToken = RaisedToken(symbol: string, address: string, amount: int)

  datatype Contracts = Contracts(
    routerV3: string,
    routerV2: string,
    factory: string,
    ftoFactory: string,
    ftoFacade: string,
    memeFactory: string,
    memeFacade: string,
    vaultFactory: string,
    ftoTokens: seq<TokenInfo>)

  datatype Network = Network(
    chain: Chain,
    isActive: bool,
    platformHpot: Option<string>,
    contracts: Contracts,
    nativeToken: TokenInfo,
    raisedTokenData: Option<seq<RaisedToken>>,
    faucetTokens: seq<TokenInfo>,
    validatedTokens: seq<TokenInfo>,
    validatedTokensInfo: seq<Entry>,
    validatedFtoAddresses: seq<string>,
    validatedMemeAddresses: seq<string>)
  {
    function ChainId(): int {
      chain.id
    }
  }

  /** The constructor's argument: the fields a configuration may give. */
  datatype NetworkArgs = NetworkArgs(
    chain: Chain,
    isActive: Option<bool>,
    platformHpot: Option<string>,
    contracts: Contracts,
    nativeToken: TokenInfo,
    raisedTokenData: Option<seq<RaisedToken>>,
    faucetTokens: seq<TokenInfo>,
    validatedTokens: Option<seq<TokenInfo>>,
    validatedTokensInfo: seq<Entry>,
    validatedFtoAddresses: Option<seq<string>>,
    validatedMemeAddresses: Option<seq<string>>)

  /** `new Network(args)`: the given fields are copied over the defaults
      (active, no validated tokens, no validated addresses). */
  function NewNetwork(args: NetworkArgs): (n: Network)
    ensures n.chain == args.chain && n.ChainId() == args.chain.id
    ensures n.isActive <==> args.isActive != Some(false)
    ensures n.platformHpot == args.platformHpot && n.contracts == args.contracts
    ensures n.nativeToken == args.nativeToken && n.raisedTokenData == args.raisedTokenData
    ensures n.faucetTokens == args.faucetTokens && n.validatedTokensInfo == args.validatedTokensInfo
    ensures args.validatedTokens.Some? ==> n.validatedTokens == args.validatedTokens.value
    ensures args.validatedTokens.None? ==> n.validatedTokens == []
    ensures args.validatedFtoAddresses.Some? ==> n.validatedFtoAddresses == args.validatedFtoAddresses.value
    ensures args.validatedFtoAddresses.None? ==> n.validatedFtoAddresses == []
    ensures args.validatedMemeAddresses.Some? ==> n.validatedMemeAddresses == args.validatedMemeAddresses.value
    ensures args.validatedMemeAddresses.None? ==> n.validatedMemeAddresses == []
  {
    Network(
      args.chain,
      OrElse(args.isActive, true),
      args.platformHpot,
      args.contracts,
      args.nativeToken,
      args.raisedTokenData,
      args.faucetTokens,
      OrElse(args.validatedTokens, []),
      args.validatedTokensInfo,
      OrElse(args.validatedFtoAddresses, []),
      OrElse(args.validatedMemeAddresses, []))
  }

  /** `Token.getToken`: the token instance for the given data. The
      registry's cache and the on-chain reads of `token.init` are not part
      of this model; the instance carries the data it was given. */
  function GetToken(t: TokenInfo): (r: TokenInfo)
    ensures r.isInstance
    ensures r.(isInstance := t.isInstance) == t
  {
    t.(isInstance := true)
  }

  function Keys(es: seq<Entry>): (ks: seq<string>)
    ensures |ks| == |es| && forall i :: 0 <= i < |es| ==> ks[i] == es[i].key
  {
    seq(|es|, i requires 0 <= i < |es| => es[i].key)
  }

  function TokensOf(es: seq<Entry>): (ts: seq<TokenInfo>)
    ensures |ts| == |es| && forall i :: 0 <= i < |es| ==> ts[i] == es[i].token
  {
    seq(|es|, i requires 0 <= i < |es| => es[i].token)
  }

  /** The entry for `key` (object keys are unique, so the first is the only one). */
  function Lookup(es: seq<Entry>, key: string): (r: Option<TokenInfo>)
    ensures r.None? <==> key !in Keys(es)
    ensures r.Some? ==> exists i :: 0 <= i < |es| && es[i].key == key && es[i].token == r.value
    decreases |es|
  {
    if |es| == 0 then None
    else if es[0].key == key then Some(es[0].token)
    else
      var rest := Lookup(es[1..], key);
      assert Keys(es) == [es[0].key] + Keys(es[1..]);
      rest
  }

  /** Network identity the registry is keyed and filtered on. */
  predicate SameIdentity(a: Network, b: Network) {
    a.chain == b.chain && a.isActive == b.isActive && a.contracts == b.contracts
  }

  /** `network.init()`: every configured token becomes a token instance.
      Each validated entry is resolved with its key as its address, stored
      back under the same key and appended to `validatedTokens`. */
  function Init(n: Network): (m: Network)
    ensures SameIdentity(n, m)
    ensures m.platformHpot == n.platformHpot && m.raisedTokenData == n.raisedTokenData
    ensures m.validatedFtoAddresses == n.validatedFtoAddresses
    ensures m.validatedMemeAddresses == n.validatedMemeAddresses
    ensures m.nativeToken == GetToken(n.nativeToken)
    ensures |m.faucetTokens| == |n.faucetTokens|
    ensures forall i :: 0 <= i < |n.faucetTokens| ==> m.faucetTokens[i] == GetToken(n.faucetTokens[i])
    ensures Keys(m.validatedTokensInfo) == Keys(n.validatedTokensInfo)
    ensures forall i :: 0 <= i < |m.validatedTokensInfo| ==>
              m.validatedTokensInfo[i].token ==
                GetToken(n.validatedTokensInfo[i].token.(address := Some(n.validatedTokensInfo[i].key)))
    ensures forall i :: 0 <= i < |m.validatedTokensInfo| ==>
              m.validatedTokensInfo[i].token.address == Some(m.validatedTokensInfo[i].key)
    ensures m.validatedTokens == n.validatedTokens + TokensOf(m.validatedTokensInfo)
  {
    var info := n.validatedTokensInfo;
    var resolved := seq(|info|, i requires 0 <= i < |info| =>
                          Entry(info[i].key, GetToken(info[i].token.(address := Some(info[i].key)))));
    n.(nativeToken := GetToken(n.nativeToken),
       faucetTokens := seq(|n.faucetTokens|, i requires 0 <= i < |n.faucetTokens| => GetToken(n.faucetTokens[i])),
       validatedTokensInfo := resolved,
       validatedTokens := n.validatedTokens + TokensOf(resolved))
  }

  /** `init` is not idempotent: every call appends the validated tokens
      once more, while every other field settles after the first call. */
  /** A network configured without a validated-token list lists, once
      initialised, exactly its validated tokens in configuration order,
      each resolved with its key as its address. */
  lemma FreshNetworkInitListsValidatedTokens(args: NetworkArgs)
    requires args.validatedTokens.None?
    ensures var m := Init(NewNetwork(args));
            && |m.validatedTokens| == |args.validatedTokensInfo|
            && forall i :: 0 <= i < |args.validatedTokensInfo| ==>
                 m.validatedTokens[i] == GetToken(args.validatedTokensInfo[i].token.(address := Some(args.validatedTokensInfo[i].key)))
  {
    var n := NewNetwork(args);
    var m := Init(n);
    assert m.validatedTokens == TokensOf(m.validatedTokensInfo);
  }

  lemma InitTwiceDuplicatesValidatedTokens(n: Network)
    ensures |Init(Init(n)).validatedTokens| == |n.validatedTokens| + 2 * |n.validatedTokensInfo|
    ensures Init(Init(n)).(validatedTokens := Init(n).validatedTokens) == Init(n)
    ensures |n.validatedTokensInfo| > 0 ==> Init(Init(n)) != Init(n)
  {
    var once := Init(n);
    var twice := Init(once);
    assert twice.validatedTokensInfo == once.validatedTokensInfo;
    assert twice.faucetTokens == once.faucetTokens;
  }

  /** Index of the last network with chain id `id`, or -1. */
  function LastIndex(ns: seq<Network>, id: int): (i: int)
    ensures -1 <= i < |ns|
    ensures i >= 0 ==> ns[i].ChainId() == id
    ensures forall j :: i < j < |ns| ==> ns[j].ChainId() != id
    decreases |ns|
  {
    if |ns| == 0 then -1
    else if ns[|ns| - 1].ChainId() == id then |ns| - 1
    else LastIndex(ns[..|ns| - 1], id)
  }

  /** The chain ids the networks carry. */
  function ChainIds(ns: seq<Network>): set<int> {
    set i | 0 <= i < |ns| :: ns[i].ChainId()
  }

  /** Two lists with the same chain id at every position carry the same ids. */
  lemma ChainIdsReadsOnlyIds(ns: seq<Network>, ns': seq<Network>)
    requires |ns| == |ns'|
    requires forall j :: 0 <= j < |ns| ==> ns[j].ChainId() == ns'[j].ChainId()
    ensures ChainIds(ns) == ChainIds(ns')
  {
    forall id | id in ChainIds(ns)
      ensures id in ChainIds(ns')
    {
      var i :| 0 <= i < |ns| && ns[i].ChainId() == id;
      assert ns'[i].ChainId() == id;
    }
    forall id | id in ChainIds(ns')
      ensures id in ChainIds(ns)
    {
      var i :| 0 <= i < |ns'| && ns'[i].ChainId() == id;
      assert ns[i].ChainId() == id;
    }
  }

  lemma ChainIdsOfSnoc(ns: seq<Network>)
    requires |ns| > 0
    ensures ChainIds(ns) == ChainIds(ns[..|ns| - 1]) + {ns[|ns| - 1].ChainId()}
  {
    var front := ns[..|ns| - 1];
    forall id | id in ChainIds(ns)
      ensures id in ChainIds(front) + {ns[|ns| - 1].ChainId()}
    {
      var i :| 0 <= i < |ns| && ns[i].ChainId() == id;
      if i < |front| {
        assert front[i].ChainId() == id;
      }
    }
    forall id | id in ChainIds(front)
      ensures id in ChainIds(ns)
    {
      var i :| 0 <= i < |front| && front[i].ChainId() == id;
      assert ns[i].ChainId() == id;
    }
  }

  /** The networks indexed by chain id, folding the list from the front
      so that a later network replaces an earlier one with the same id. */
  function NetworksMap(ns: seq<Network>): (m: map<int, Network>)
    ensures m.Keys == ChainIds(ns)
    decreases |ns|
  {
    if |ns| == 0 then map[]
    else
      ChainIdsOfSnoc(ns);
      NetworksMap(ns[..|ns| - 1])[ns[|ns| - 1].ChainId() := ns[|ns| - 1]]
  }

  /** The index holds exactly the chain ids of the list, each mapped to the
      last network carrying it. */
  lemma {:induction false} NetworksMapIndexesLastNetwork(ns: seq<Network>)
    ensures NetworksMap(ns).Keys == ChainIds(ns)
    ensures forall id :: id in NetworksMap(ns) ==>
              LastIndex(ns, id) >= 0 && NetworksMap(ns)[id] == ns[LastIndex(ns, id)]
    decreases |ns|
  {
    if |ns| > 0 {
      var front := ns[..|ns| - 1];
      NetworksMapIndexesLastNetwork(front);
      ChainIdsOfSnoc(ns);
      LastIndexOfSnoc(ns);
    }
  }

  lemma LastIndexOfSnoc(ns: seq<Network>)
    requires |ns| > 0
    ensures forall id :: LastIndex(ns, id) ==
              if ns[|ns| - 1].ChainId() == id then |ns| - 1 else LastIndex(ns[..|ns| - 1], id)
  {
  }

  /** A chain id is in the index exactly when some network carries it. */
  lemma NetworksMapHasEveryChainId(ns: seq<Network>, id: int)
    ensures id in NetworksMap(ns) <==> exists i :: 0 <= i < |ns| && ns[i].ChainId() == id
  {
    NetworksMapIndexesLastNetwork(ns);
    if exists i :: 0 <= i < |ns| && ns[i].ChainId() == id {
      var i :| 0 <= i < |ns| && ns[i].ChainId() == id;
      assert id in ChainIds(ns);
    }
  }

  /** The last-index search reads nothing but the chain ids. */
  lemma {:induction false} LastIndexReadsOnlyIds(ns: seq<Network>, ns': seq<Network>, id: int)
    requires |ns| == |ns'|
    requires forall j :: 0 <= j < |ns| ==> ns[j].ChainId() == ns'[j].ChainId()
    ensures LastIndex(ns, id) == LastIndex(ns', id)
    decreases |ns|
  {
    if |ns| > 0 {
      LastIndexReadsOnlyIds(ns[..|ns| - 1], ns'[..|ns'| - 1], id);
    }
  }

  /** Running `init` on one network of the list leaves the index with the
      same chain ids, and every indexed network keeps its identity. */
  lemma InitKeepsNetworksMap(ns: seq<Network>, k: nat)
    requires k < |ns|
    ensures var ns' := ns[k := Init(ns[k])];
            NetworksMap(ns').Keys == NetworksMap(ns).Keys &&
            forall id :: id in NetworksMap(ns) ==> SameIdentity(NetworksMap(ns)[id], NetworksMap(ns')[id])
  {
    var ns' := ns[k := Init(ns[k])];
    assert forall j :: 0 <= j < |ns| ==> ns[j].ChainId() == ns'[j].ChainId();
    ChainIdsReadsOnlyIds(ns, ns');
    NetworksMapIndexesLastNetwork(ns);
    NetworksMapIndexesLastNetwork(ns');
    forall id | id in NetworksMap(ns)
      ensures SameIdentity(NetworksMap(ns)[id], NetworksMap(ns')[id])
    {
      LastIndexReadsOnlyIds(ns, ns', id);
    }
  }
}
