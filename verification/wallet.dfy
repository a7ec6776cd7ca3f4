/** The wallet singleton: which chain and account the application works
    with, and the guarded `initWallet` step that sets them from a
    connected wallet client. */
module Wallet {
  import opened Wrappers
  import opened Chain

  /** What `initWallet` reads from the connected client. */
  datatype WalletClient = WalletClient(chainId: Option<int>, address: Option<string>)

  /** A contract wrapper; only the address it is built from is modelled. */
  datatype ContractWrapper = ContractWrapper(address: string)

  datatype WalletContracts = WalletContracts(
    routerV2: ContractWrapper,
    factory: ContractWrapper,
    ftofactory: ContractWrapper,
    ftofacade: ContractWrapper,
    memeFactory: ContractWrapper,
    memeFacade: ContractWrapper,
    vaultFactory: ContractWrapper)

  datatype Wallet = Wallet(
    account: string,
    networks: seq<Network>,
    currentChainId: int,
    contracts: Option<WalletContracts>,
    walletClient: Option<WalletClient>,
    isInit: bool)

  /** The wallet and the module-level network list it shares its networks
      with: `init` on the current chain changes the shared network. */
  datatype World = World(networks: seq<Network>, wallet: Wallet)

  const InitialWallet: Wallet := Wallet("", [], -1, None, None, false)

  /** The `currentChain` getter: the indexed network for the current chain
      id, or nothing when that id is not indexed. */
  function CurrentChain(w: Wallet): (r: Option<Network>)
    ensures r.Some? <==> exists i :: 0 <= i < |w.networks| && w.networks[i].ChainId() == w.currentChainId
    ensures r.Some? ==> r.value == w.networks[LastIndex(w.networks, w.currentChainId)]
  {
    NetworksMapIndexesLastNetwork(w.networks);
    NetworksMapHasEveryChainId(w.networks, w.currentChainId);
    var m := NetworksMap(w.networks);
    if w.currentChainId in m then Some(m[w.currentChainId]) else None
  }

  /** Before any initialisation there is no account and no current chain. */
  lemma InitialWalletHasNoChain()
    ensures CurrentChain(InitialWallet) == None
    ensures InitialWallet.account == "" && !InitialWallet.isInit
  {
  }

  /** Each wrapper is built from the same-named address of the chain's contracts. */
  function WalletContractsFor(c: Contracts): WalletContracts {
    WalletContracts(
      ContractWrapper(c.routerV2),
      ContractWrapper(c.factory),
      ContractWrapper(c.ftoFactory),
      ContractWrapper(c.ftoFacade),
      ContractWrapper(c.memeFactory),
      ContractWrapper(c.memeFacade),
      ContractWrapper(c.vaultFactory))
  }

  /** The guard of `initWallet`: a non-zero chain id that is indexed, an
      active network for it, and a non-empty account address. Read through
      the list itself: some network carries the id, and the last one that
      does is active. */
  function Accepts(networks: seq<Network>, client: WalletClient): (ok: bool)
    ensures ok <==>
              && client.chainId.Some? && client.chainId.value != 0
              && client.address.Some? && client.address.value != ""
              && client.chainId.value in ChainIds(networks)
              && networks[LastIndex(networks, client.chainId.value)].isActive
  {
    NetworksMapIndexesLastNetwork(networks);
    var m := NetworksMap(networks);
    && client.chainId.Some? && client.chainId.value != 0
    && client.chainId.value in m
    && client.address.Some? && client.address.value != ""
    && m[client.chainId.value].isActive
  }

  /** `initWallet(client)`, with the stored mock account and the outcome of
      the storage sync as inputs. The wallet always takes the module list;
      a client the guard refuses changes nothing else. An accepted client
      sets chain, account, contracts and client, runs `init` on the current
      chain's network, and sets `isInit` once the sync succeeds. */
  function InitWallet(world: World, client: WalletClient, mockAccount: Option<string>, syncSucceeds: bool): (r: World)
    ensures r.wallet.networks == r.networks
    ensures (client.chainId.None? || client.chainId == Some(0)) ==>
              r == World(world.networks, world.wallet.(networks := world.networks))
    ensures client.chainId.Some? && client.chainId.value !in ChainIds(world.networks) ==>
              r == World(world.networks, world.wallet.(networks := world.networks))
    ensures (client.address.None? || client.address == Some("")) ==>
              r == World(world.networks, world.wallet.(networks := world.networks))
    ensures client.chainId.Some? && client.chainId.value in ChainIds(world.networks) &&
            !world.networks[LastIndex(world.networks, client.chainId.value)].isActive ==>
              r == World(world.networks, world.wallet.(networks := world.networks))
    ensures Accepts(world.networks, client) ==>
              var id := client.chainId.value;
              var k := LastIndex(world.networks, id);
              && 0 <= k < |world.networks|
              && r.networks == world.networks[k := Init(world.networks[k])]
              && r.wallet.currentChainId == id
              && r.wallet.account == (if mockAccount.Some? && mockAccount.value != "" then mockAccount.value
                                      else client.address.value)
              && r.wallet.contracts == Some(WalletContractsFor(world.networks[k].contracts))
              && r.wallet.walletClient == Some(client)
              && (r.wallet.isInit <==> world.wallet.isInit || syncSucceeds)
    ensures world.wallet.isInit ==> r.wallet.isInit
  {
    var w := world.wallet.(networks := world.networks);
    NetworksMapIndexesLastNetwork(world.networks);
    if !Accepts(world.networks, client) then World(world.networks, w)
    else
      var id := client.chainId.value;
      var k := LastIndex(world.networks, id);
      var current := world.networks[k];
      var account := if mockAccount.Some? && mockAccount.value != "" then mockAccount.value
                     else client.address.value;
      var networks := world.networks[k := Init(current)];
      World(networks, w.(
        currentChainId := id,
        account := account,
        contracts := Some(WalletContractsFor(current.contracts)),
        walletClient := Some(client),
        networks := networks,
        isInit := w.isInit || syncSucceeds))
  }

  /** What holds of the wallet once it is initialised: it works on an
      indexed, active chain with a non-empty account and built contracts. */
  predicate Initialised(world: World) {
    var w := world.wallet;
    w.isInit ==>
      && w.networks == world.networks
      && w.account != ""
      && w.contracts.Some?
      && CurrentChain(w).Some?
      && CurrentChain(w).value.isActive
  }

  /** One call of `initWallet` keeps the initialised state sound and leaves
      the indexed chain ids as they were. */
  lemma InitWalletKeepsInitialised(world: World, client: WalletClient, mockAccount: Option<string>, syncSucceeds: bool)
    requires Initialised(world)
    ensures Initialised(InitWallet(world, client, mockAccount, syncSucceeds))
    ensures ChainIds(InitWallet(world, client, mockAccount, syncSucceeds).networks) == ChainIds(world.networks)
  {
    var r := InitWallet(world, client, mockAccount, syncSucceeds);
    NetworksMapIndexesLastNetwork(world.networks);
    if Accepts(world.networks, client) {
      var id := client.chainId.value;
      var k := LastIndex(world.networks, id);
      InitKeepsNetworksMap(world.networks, k);
      NetworksMapIndexesLastNetwork(r.networks);
      if r.wallet.isInit {
        assert NetworksMap(world.networks)[id].isActive;
        assert SameIdentity(NetworksMap(world.networks)[id], NetworksMap(r.networks)[id]);
      }
    } else if world.wallet.isInit {
      assert r.wallet == world.wallet;
    }
  }

  /** One call of `initWallet` as the application makes it. */
  datatype InitCall = InitCall(client: WalletClient, mockAccount: Option<string>, syncSucceeds: bool)

  function RunInit(world: World, calls: seq<InitCall>): World
    decreases |calls|
  {
    if |calls| == 0 then world
    else
      var c := calls[0];
      RunInit(InitWallet(world, c.client, c.mockAccount, c.syncSucceeds), calls[1..])
  }

  /** Starting from the initial wallet, any sequence of calls keeps the
      initialised state sound, never resets `isInit` and never changes the
      indexed chain ids. */
  lemma {:induction false} RunInitKeepsInitialised(world: World, calls: seq<InitCall>)
    requires Initialised(world)
    ensures Initialised(RunInit(world, calls))
    ensures ChainIds(RunInit(world, calls).networks) == ChainIds(world.networks)
    ensures world.wallet.isInit ==> RunInit(world, calls).wallet.isInit
    decreases |calls|
  {
    if |calls| > 0 {
      var c := calls[0];
      var next := InitWallet(world, c.client, c.mockAccount, c.syncSucceeds);
      InitWalletKeepsInitialised(world, c.client, c.mockAccount, c.syncSucceeds);
      RunInitKeepsInitialised(next, calls[1..]);
    }
  }

  /** The initial wallet, next to any module list, is soundly uninitialised. */
  lemma InitialWorldInitialised(networks: seq<Network>)
    ensures Initialised(World(networks, InitialWallet))
  {
  }

  /** Two accepted calls run `init` twice on the same network, so its
      validated tokens are appended twice. */
  lemma RepeatedInitWalletDuplicatesTokens(world: World, client: WalletClient, mockAccount: Option<string>, syncSucceeds: bool)
    requires Accepts(world.networks, client)
    ensures var once := InitWallet(world, client, mockAccount, syncSucceeds);
            var twice := InitWallet(once, client, mockAccount, syncSucceeds);
            var k := LastIndex(world.networks, client.chainId.value);
            |twice.networks[k].validatedTokens| ==
              |world.networks[k].validatedTokens| + 2 * |world.networks[k].validatedTokensInfo|
  {
    var id := client.chainId.value;
    var k := LastIndex(world.networks, id);
    var once := InitWallet(world, client, mockAccount, syncSucceeds);
    NetworksMapIndexesLastNetwork(world.networks);
    InitKeepsNetworksMap(world.networks, k);
    LastIndexReadsOnlyIds(world.networks, once.networks, id);
    NetworksMapIndexesLastNetwork(once.networks);
    assert NetworksMap(once.networks)[id] == once.networks[k];
    assert Accepts(once.networks, client);
    InitTwiceDuplicatesValidatedTokens(world.networks[k]);
  }
}
