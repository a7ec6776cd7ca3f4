/** The Berachain network configuration and the module-level network list
    built from it. The chain description comes from another file and the
    deployment's contract addresses are read by no property stated here,
    so both are parameters. */
module Berachain {
  import opened Wrappers
  import opened Text
  import opened Chain

  function Info(name: string, symbol: string, decimals: nat): TokenInfo {
    TokenInfo(None, Some(name), Some(symbol), Some(decimals), false)
  }

  function InfoAt(address: string, name: string, symbol: string, decimals: nat): TokenInfo {
    TokenInfo(Some(address), Some(name), Some(symbol), Some(decimals), false)
  }

  /** The address of the platform token HPOT. */
  function HpotAddress(): string {
    ToLower("0x9b37d542114070518a44e200fdcd8e4be737297f")
  }

  function RaisedTokenData(): seq<RaisedToken> {
    [ RaisedToken("HPOT", ToLower("0x9b37d542114070518a44e200fdcd8e4be737297f"), 1500000000000000000000000),
      RaisedToken("WBERA", ToLower("0x6969696969696969696969696969696969696969"), 2000000000000000000000),
      RaisedToken("Honey", ToLower("0xFCBD14DC51f0A4d49d5E53C2E0950e0bC26d0Dce"), 20000000000000000000000),
      RaisedToken("NECT", ToLower("0x1cE0a25D13CE4d52071aE7e02Cf1F6606F4C79d3"), 20000000000000000000000),
      RaisedToken("WGBERA", ToLower("0xd77552d3849ab4d8c3b189a9582d0ba4c1f4f912"), 2000000000000000000000) ]
  }

  /** `validatedTokensInfo` exactly as the configuration writes it. */
  function ValidatedTokensInfoAsWritten(): seq<Entry> {
    [ Entry("0x0000000000000000000000000000000000000000", Info("Bera", "BERA", 18)),
      Entry("0x6969696969696969696969696969696969696969", Info("Wrapped Bera", "WBERA", 18)),
      Entry("0xfcbd14dc51f0a4d49d5e53c2e0950e0bc26d0dce", Info("Honey", "HONEY", 18)),
      Entry("0x9b37d542114070518a44e200fdcd8e4be737297f", Info("HPOT", "HPOT", 18)),
      Entry("0x549943e04f40284185054145c6e4e9568c1d3241", Info("USDC", "USDC", 6)),
      Entry("0x0555e30da8f98308edb960aa94c0db47230d2b9c", Info("WBTC", "WBTC", 18)),
      Entry("0x2f6f07cdcf3588944bf4c42ac74ff24bf56e7590", Info("WETH", "WETH", 18)),
      Entry("0x1cE0a25D13CE4d52071aE7e02Cf1F6606F4C79d3", Info("NECT", "NECT", 18)),
      Entry("0xd77552d3849ab4d8c3b189a9582d0ba4c1f4f912", Info("WGBERA", "WGBERA", 18)) ]
  }

  /** Every key is written in lower case, as the configuration requires of
      every key added to `validatedTokensInfo`. */
  predicate KeysLowercase(es: seq<Entry>) {
    forall i :: 0 <= i < |es| ==> IsLowercase(es[i].key)
  }

  /** The entries with every key lower-cased. */
  function LowercaseKeys(es: seq<Entry>): (r: seq<Entry>)
    ensures |r| == |es| && KeysLowercase(r)
    ensures forall i :: 0 <= i < |es| ==> r[i] == es[i].(key := ToLower(es[i].key))
  {
    seq(|es|, i requires 0 <= i < |es| => es[i].(key := ToLower(es[i].key)))
  }

  /** `validatedTokensInfo` with the casing rule applied: only the NECT
      entry changes. This is the corrected half of the casing finding; the
      network list is built from the entries as written. */
  function ValidatedTokensInfoCorrected(): (r: seq<Entry>)
    ensures KeysLowercase(r)
  {
    LowercaseKeys(ValidatedTokensInfoAsWritten())
  }

  function BerachainArgs(berachain: Chain, contracts: Contracts, validated: seq<Entry>): NetworkArgs {
    NetworkArgs(
      berachain,
      None,
      Some(HpotAddress()),
      contracts,
      InfoAt("0x6969696969696969696969696969696969696969", "Bera", "BERA", 18),
      Some(RaisedTokenData()),
      [ InfoAt(ToLower("0xfc5e3743E9FAC8BB60408797607352E24Db7d65E"), "T-HPOT", "tHPOT", 18),
        InfoAt(ToLower("0x2C2fc71339aCdD913734a4CAe9dD95D9d2b1438d"), "Bera the Pooh", "BTP", 18) ],
      None,
      validated,
      Some([]),
      Some([]))
  }

  /** `berachainNetwork` as the configuration writes it: active by default,
      on the given chain and contracts, with the raised tokens, the HPOT
      address and the validated tokens above, and no validated token
      resolved before `init`. */
  function BerachainNetworkAsWritten(berachain: Chain, contracts: Contracts): (n: Network)
    ensures n.ChainId() == berachain.id && n.isActive && n.contracts == contracts
    ensures n.raisedTokenData == Some(RaisedTokenData()) && n.platformHpot == Some(HpotAddress())
    ensures n.validatedTokensInfo == ValidatedTokensInfoAsWritten() && n.validatedTokens == []
    ensures |n.faucetTokens| == 2
  {
    NewNetwork(BerachainArgs(berachain, contracts, ValidatedTokensInfoAsWritten()))
  }

  /** `berachainNetwork` with the casing rule applied: it differs from the
      network as written in the validated-token keys alone. */
  function BerachainNetworkCorrected(berachain: Chain, contracts: Contracts): (n: Network)
    ensures n == BerachainNetworkAsWritten(berachain, contracts).(validatedTokensInfo := ValidatedTokensInfoCorrected())
    ensures KeysLowercase(n.validatedTokensInfo)
  {
    NewNetwork(BerachainArgs(berachain, contracts, ValidatedTokensInfoCorrected()))
  }

  /** The exported `networks` list: Berachain alone, as written. */
  function Networks(berachain: Chain, contracts: Contracts): (ns: seq<Network>)
    ensures |ns| == 1 && ChainIds(ns) == {berachain.id}
    ensures ns[0].isActive && ns[0].validatedTokensInfo == ValidatedTokensInfoAsWritten()
  {
    var n := BerachainNetworkAsWritten(berachain, contracts);
    assert n in [n];
    [n]
  }

  /** The Berachain network as written does not keep its own casing rule:
      its validated-token keys are not all lower case, and a lookup by the
      lower-cased NECT address finds nothing. */
  lemma BerachainNetworkBreaksCasingRule(berachain: Chain, contracts: Contracts)
    ensures var n := BerachainNetworkAsWritten(berachain, contracts);
            && !KeysLowercase(n.validatedTokensInfo)
            && Lookup(n.validatedTokensInfo, NectAddress()).None?
  {
    NectKeyBreaksCasingRule();
    NectLookupMissesAsWritten();
  }

  /** The exported `networksMap` holds exactly Berachain as written, under
      its chain id. */
  lemma NetworksMapHoldsOnlyBerachain(berachain: Chain, contracts: Contracts)
    ensures NetworksMap(Networks(berachain, contracts)) ==
              map[berachain.id := BerachainNetworkAsWritten(berachain, contracts)]
  {
  }

  /** Every raised-token address is lower case, the HPOT entry is the
      platform token's address, and the NECT entry is the lower-cased NECT
      address. */
  lemma RaisedTokenAddressesLowercase()
    ensures forall i :: 0 <= i < |RaisedTokenData()| ==> IsLowercase(RaisedTokenData()[i].address)
    ensures RaisedTokenData()[0].symbol == "HPOT" && RaisedTokenData()[0].address == HpotAddress()
    ensures RaisedTokenData()[3].symbol == "NECT" && RaisedTokenData()[3].address == NectAddress()
  {
  }

  /** The lower-cased NECT address. */
  function NectAddress(): string {
    ToLower("0x1cE0a25D13CE4d52071aE7e02Cf1F6606F4C79d3")
  }

  /** As written, the NECT key breaks the lower-case rule, and so it is not
      the lower-cased NECT address under which the raised NECT token is
      known. */
  lemma NectKeyBreaksCasingRule()
    ensures !KeysLowercase(ValidatedTokensInfoAsWritten())
    ensures ValidatedTokensInfoAsWritten()[7].token.symbol == Some("NECT")
    ensures ValidatedTokensInfoAsWritten()[7].key != NectAddress()
  {
    var nect := ValidatedTokensInfoAsWritten()[7].key;
    assert nect[4] == 'E';
    assert NectAddress()[4] == 'e';
  }

  /** As written, no key is the lower-cased NECT address, so looking NECT
      up by the address the raised-token list uses finds nothing. */
  lemma NectLookupMissesAsWritten()
    ensures Lookup(ValidatedTokensInfoAsWritten(), NectAddress()).None?
  {
    var es := ValidatedTokensInfoAsWritten();
    NectDiffersFromEveryKey();
    forall i | 0 <= i < |es|
      ensures Keys(es)[i] != NectAddress()
    {
    }
  }

  /** Every key as written differs from the lower-cased NECT address in
      one character: the third for every key but NECT's own, the fifth for
      NECT's. */
  lemma NectDiffersFromEveryKey()
    ensures forall i :: 0 <= i < |ValidatedTokensInfoAsWritten()| ==> ValidatedTokensInfoAsWritten()[i].key != NectAddress()
  {
    var es := ValidatedTokensInfoAsWritten();
    var nect := NectAddress();
    assert nect[2] == '1' && nect[4] == 'e';
    forall i | 0 <= i < |es|
      ensures es[i].key != nect
    {
      if i == 7 {
        assert es[i].key[4] == 'E';
      } else {
        assert es[i].key[2] != '1';
      }
    }
  }

  // The keys other than NECT's are already lower case; four lemmas keep
  // each proof small.
  lemma OtherKeysAreLowercase1()
    ensures IsLowercase("0x0000000000000000000000000000000000000000")
    ensures IsLowercase("0x6969696969696969696969696969696969696969")
  {
  }

  lemma OtherKeysAreLowercase2()
    ensures IsLowercase("0xfcbd14dc51f0a4d49d5e53c2e0950e0bc26d0dce")
    ensures IsLowercase("0x9b37d542114070518a44e200fdcd8e4be737297f")
  {
  }

  lemma OtherKeysAreLowercase3()
    ensures IsLowercase("0x549943e04f40284185054145c6e4e9568c1d3241")
    ensures IsLowercase("0x0555e30da8f98308edb960aa94c0db47230d2b9c")
  {
  }

  lemma OtherKeysAreLowercase4()
    ensures IsLowercase("0x2f6f07cdcf3588944bf4c42ac74ff24bf56e7590")
    ensures IsLowercase("0xd77552d3849ab4d8c3b189a9582d0ba4c1f4f912")
  {
  }

  /** With the casing rule applied the only key that changes is NECT's. */
  lemma CorrectionChangesOnlyNect()
    ensures forall i :: 0 <= i < 9 && i != 7 ==> ValidatedTokensInfoCorrected()[i] == ValidatedTokensInfoAsWritten()[i]
    ensures ValidatedTokensInfoCorrected()[7].key != ValidatedTokensInfoAsWritten()[7].key
  {
    var es := ValidatedTokensInfoAsWritten();
    OtherKeysAreLowercase1();
    OtherKeysAreLowercase2();
    OtherKeysAreLowercase3();
    OtherKeysAreLowercase4();
    forall i | 0 <= i < 9 && i != 7
      ensures ToLower(es[i].key) == es[i].key
    {
      ToLowerFixesLowercase(es[i].key);
    }
    assert es[7].key[4] == 'E';
    assert ToLower(es[7].key)[4] == 'e';
  }

  /** With the casing rule applied, every token is found under its
      lower-cased address, whatever case its key was written in. */
  lemma LowercaseKeysFindEveryToken(es: seq<Entry>, i: nat)
    requires i < |es|
    ensures Lookup(LowercaseKeys(es), ToLower(es[i].key)).Some?
  {
    assert Keys(LowercaseKeys(es))[i] == ToLower(es[i].key);
  }

  /** With the casing rule applied the NECT entry is found under the
      lower-cased NECT address. */
  lemma CorrectedKeysFindNect()
    ensures Lookup(ValidatedTokensInfoCorrected(), NectAddress()).Some?
  {
    assert Keys(ValidatedTokensInfoCorrected())[7] == NectAddress();
  }
}
