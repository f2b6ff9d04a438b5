/** The strict market-cap universe: admissible contracts and the members chosen among them. */
module MarketCap {
  import opened Basics
  import opened Text

  /** The fields of one exchange contract as the exchange spells them. */
  datatype RawContract = RawContract(
    contractType: string, status: string, quoteAsset: string, underlyingType: string, baseAsset: string, symbol: string)

  /** _upper_field */
  function Field(raw: string): string {
    Upper(StripRight(StripLeft(raw)))
  }

  /** A trading USDT perpetual on a coin, not excluded by policy. */
  predicate Admissible(c: RawContract, excluded: string -> bool) {
    && Field(c.contractType) == "PERPETUAL" && Field(c.status) == "TRADING"
    && Field(c.quoteAsset) == "USDT" && Field(c.underlyingType) == "COIN"
    && Field(c.baseAsset) != "" && Field(c.symbol) == Field(c.baseAsset) + "USDT"
    && !excluded(Field(c.baseAsset))
  }

  /** _binance_crypto_usdt_perpetual_symbols: symbol to base asset. */
  function Contracts(raws: seq<RawContract>, excluded: string -> bool): map<string, string>
    decreases |raws|
  {
    if raws == [] then map[]
    else
      var c := raws[|raws| - 1];
      var before := Contracts(raws[..|raws| - 1], excluded);
      if Admissible(c, excluded) then before[Field(c.symbol) := Field(c.baseAsset)] else before
  }

  /** A ranked asset: the contract its identity points to and the base asset that contract must
      have; `None` when the identity is rejected. */
  datatype Asset = Asset(contract: Option<string>, base: string)

  predicate Matches(a: Asset, contracts: map<string, string>, liquid: set<string>) {
    && a.contract.Some? && a.contract.value in contracts && contracts[a.contract.value] == a.base
    && a.contract.value in liquid
  }

  function Matched(cohort: seq<Asset>, contracts: map<string, string>, liquid: set<string>): (out: seq<string>)
    ensures forall s :: s in out ==> s in contracts && s in liquid
    decreases |cohort|
  {
    if cohort == [] then []
    else
      var a := cohort[|cohort| - 1];
      var before := Matched(cohort[..|cohort| - 1], contracts, liquid);
      if Matches(a, contracts, liquid) then before + [a.contract.value] else before
  }

  /** _select_qualified_perpetuals before the ranking: an asset whose contract is taken already
      is rejected. */
  method SelectMembers(cohort: seq<Asset>, contracts: map<string, string>, liquid: set<string>)
    returns (chosen: seq<string>)
    ensures chosen == Dedupe(Matched(cohort, contracts, liquid))
  {
    chosen := [];
    for i := 0 to |cohort|
      invariant chosen == Dedupe(Matched(cohort[..i], contracts, liquid))
    {
      assert cohort[..i + 1][..i] == cohort[..i];
      var a := cohort[i];
      ghost var before := Matched(cohort[..i], contracts, liquid);
      if a.contract.Some? && a.contract.value in contracts && contracts[a.contract.value] == a.base
         && a.contract.value in liquid {
        assert (before + [a.contract.value])[..|before|] == before;
        if a.contract.value !in chosen { chosen := chosen + [a.contract.value]; }
      }
    }
    assert cohort[..|cohort|] == cohort;
  }

  lemma {:induction false} ContractsUpper(raws: seq<RawContract>, excluded: string -> bool, s: string)
    requires s in Contracts(raws, excluded)
    ensures Upper(s) == s
    decreases |raws|
  {
    var n := |raws| - 1;
    if s in Contracts(raws[..n], excluded) {
      ContractsUpper(raws[..n], excluded, s);
    } else {
      UpperIdempotent(StripRight(StripLeft(raws[n].symbol)));
    }
  }

  /** The exchange lists it as a trading USDT perpetual on a coin, whatever its spelling. */
  predicate Tradable(c: RawContract, excluded: string -> bool, s: string) {
    && s == Field(c.symbol) && Field(c.contractType) == "PERPETUAL" && Field(c.status) == "TRADING"
    && Field(c.quoteAsset) == "USDT" && Field(c.underlyingType) == "COIN"
    && |s| > 4 && s[..|s| - 4] == Field(c.baseAsset) && s[|s| - 4..] == "USDT" && !excluded(s[..|s| - 4])
  }

  lemma SplitSymbol(base: string, s: string)
    ensures s == base + "USDT" <==> |s| >= 4 && s[..|s| - 4] == base && s[|s| - 4..] == "USDT"
  {
    if |s| >= 4 { assert s == s[..|s| - 4] + s[|s| - 4..]; }
  }

  lemma AdmissibleIsTradable(c: RawContract, excluded: string -> bool, s: string)
    ensures Admissible(c, excluded) && Field(c.symbol) == s <==> Tradable(c, excluded, s)
  {
    SplitSymbol(Field(c.baseAsset), s);
  }

  /** Every contract that is admitted is tradable, */
  lemma {:induction false} ContractIsTradable(raws: seq<RawContract>, excluded: string -> bool, s: string) returns (i: nat)
    requires s in Contracts(raws, excluded)
    ensures i < |raws| && Tradable(raws[i], excluded, s)
    decreases |raws|
  {
    var n := |raws| - 1;
    if s in Contracts(raws[..n], excluded) {
      i := ContractIsTradable(raws[..n], excluded, s);
    } else {
      i := n;
      AdmissibleIsTradable(raws[n], excluded, s);
    }
  }

  /** and every tradable one is admitted. */
  lemma {:induction false} TradableIsContract(raws: seq<RawContract>, excluded: string -> bool, s: string, i: nat)
    requires i < |raws| && Tradable(raws[i], excluded, s)
    ensures s in Contracts(raws, excluded)
    decreases |raws|
  {
    var n := |raws| - 1;
    if i < n {
      TradableIsContract(raws[..n], excluded, s, i);
    } else {
      AdmissibleIsTradable(raws[n], excluded, s);
    }
  }

  lemma {:induction false} ContractBase(raws: seq<RawContract>, excluded: string -> bool, s: string)
    requires s in Contracts(raws, excluded)
    ensures s == Contracts(raws, excluded)[s] + "USDT"
    decreases |raws|
  {
    var n := |raws| - 1;
    if s in Contracts(raws[..n], excluded) { ContractBase(raws[..n], excluded, s); }
  }

  lemma SameBase(a: string, b: string, s: string)
    requires a + "USDT" == s && b + "USDT" == s
    ensures a == b
  {
    assert a == s[..|s| - 4] && b == s[..|s| - 4];
  }

  lemma {:induction false} MatchedBy(cohort: seq<Asset>, contracts: map<string, string>, liquid: set<string>, s: string)
    returns (i: nat)
    requires s in Matched(cohort, contracts, liquid)
    ensures s in contracts && s in liquid
    ensures i < |cohort| && cohort[i].contract == Some(s) && cohort[i].base == contracts[s]
    decreases |cohort|
  {
    var n := |cohort| - 1;
    if s in Matched(cohort[..n], contracts, liquid) {
      i := MatchedBy(cohort[..n], contracts, liquid, s);
    } else {
      i := n;
    }
  }

  lemma {:induction false} MatchIsListed(cohort: seq<Asset>, contracts: map<string, string>, liquid: set<string>, i: nat)
    requires i < |cohort| && Matches(cohort[i], contracts, liquid)
    ensures cohort[i].contract.value in Matched(cohort, contracts, liquid)
    decreases |cohort|
  {
    if i < |cohort| - 1 { MatchIsListed(cohort[..|cohort| - 1], contracts, liquid, i); }
  }

  /** A member of the strict universe is liquid, tradable, and pointed to by an asset of the
      cohort whose base is the contract's, */
  lemma MemberIs(raws: seq<RawContract>, excluded: string -> bool, cohort: seq<Asset>, liquid: set<string>,
                 ranked: seq<string>, s: string) returns (i: nat, j: nat)
    requires multiset(ranked) == multiset(Dedupe(Matched(cohort, Contracts(raws, excluded), liquid))) && s in ranked
    ensures s in liquid && i < |raws| && Tradable(raws[i], excluded, s)
    ensures j < |cohort| && cohort[j].contract == Some(s) && cohort[j].base + "USDT" == s
  {
    var contracts := Contracts(raws, excluded);
    ReorderedNoDup(Dedupe(Matched(cohort, contracts, liquid)), ranked);
    j := MatchedBy(cohort, contracts, liquid, s);
    i := ContractIsTradable(raws, excluded, s);
    ContractBase(raws, excluded, s);
  }

  /** and every such symbol is a member. */
  lemma IsMember(raws: seq<RawContract>, excluded: string -> bool, cohort: seq<Asset>, liquid: set<string>,
                 ranked: seq<string>, s: string, i: nat, j: nat)
    requires multiset(ranked) == multiset(Dedupe(Matched(cohort, Contracts(raws, excluded), liquid)))
    requires s in liquid && i < |raws| && Tradable(raws[i], excluded, s)
    requires j < |cohort| && cohort[j].contract == Some(s) && cohort[j].base + "USDT" == s
    ensures s in ranked
  {
    var contracts := Contracts(raws, excluded);
    TradableIsContract(raws, excluded, s, i);
    ContractBase(raws, excluded, s);
    SameBase(cohort[j].base, contracts[s], s);
    MatchIsListed(cohort, contracts, liquid, j);
    ReorderedNoDup(Dedupe(Matched(cohort, contracts, liquid)), ranked);
  }

  /** However the members are ranked, a strict universe lists upper-case symbols, each once, and
      each an admissible contract. */
  lemma StrictUniverseClean(raws: seq<RawContract>, excluded: string -> bool, cohort: seq<Asset>, liquid: set<string>,
                            ranked: seq<string>)
    requires multiset(ranked) == multiset(Dedupe(Matched(cohort, Contracts(raws, excluded), liquid)))
    ensures Clean(ranked) && forall s :: s in ranked ==> s in Contracts(raws, excluded)
  {
    ReorderedNoDup(Dedupe(Matched(cohort, Contracts(raws, excluded), liquid)), ranked);
    forall s | s in ranked
      ensures Upper(s) == s && s in Contracts(raws, excluded)
    {
      ContractsUpper(raws, excluded, s);
    }
  }
}
