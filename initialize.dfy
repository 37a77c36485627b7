/** The `initialize` instruction and the singleton configuration record. */
module Init {
  import opened Primitives
  import opened Accounts

  /** The program-wide configuration.  The three totals are a summary the
      program never keeps up to date: `initialize` zeroes them and no other
      instruction writes them. */
  datatype GlobalState = GlobalState(
    initialized: bool,
    admin: Pubkey,
    tokenAccount: Pubkey,
    totalFunds: u64,
    stakedFunds: u64,
    idleFunds: u64)

  predicate TotalsZero(g: GlobalState)
  {
    g.totalFunds == 0 && g.stakedFunds == 0 && g.idleFunds == 0
  }

  /** The effect of `initialize` signed by `payer`, with `programTokenAccount`
      the key of the program token account it creates. */
  function InitializeOutcome(g: GlobalState, payer: Pubkey, programTokenAccount: Pubkey): (r: Result<GlobalState>)
    ensures r.Err? <==> g.initialized
    ensures r.Err? ==> r.error == RepeatedInit
    ensures r.Ok? ==> r.value.initialized && r.value.admin == payer
    ensures r.Ok? ==> r.value.tokenAccount == programTokenAccount && TotalsZero(r.value)
  {
    if g.initialized then Err(RepeatedInit)
    else Ok(GlobalState(true, payer, programTokenAccount, 0, 0, 0))
  }

  /** The handler: the guard, then the six field assignments in the Rust
      handler's order on a copy that is stored only once the handler succeeds. */
  method Initialize(globalState: Account<GlobalState>, payer: Pubkey, programTokenAccount: Pubkey)
    returns (r: Result<()>)
    modifies globalState
    ensures var o := InitializeOutcome(old(globalState.data), payer, programTokenAccount);
      && (r.Ok? <==> o.Ok?)
      && (o.Err? ==> r == Err(o.error) && globalState.data == old(globalState.data))
      && (o.Ok? ==> globalState.data == o.value)
  {
    var g := globalState.data;
    if g.initialized {
      return Err(RepeatedInit);
    }
    g := g.(initialized := true);
    g := g.(admin := payer);
    g := g.(tokenAccount := programTokenAccount);
    g := g.(totalFunds := 0);
    g := g.(stakedFunds := 0);
    g := g.(idleFunds := 0);
    globalState.data := g;
    r := Ok(());
  }

  /** A second `initialize` fails with `RepeatedInit`, whoever signs it, and
      leaves the first initialization's record as it was. */
  lemma SecondInitializeFails(g: GlobalState, payer1: Pubkey, account1: Pubkey, payer2: Pubkey, account2: Pubkey)
    requires InitializeOutcome(g, payer1, account1).Ok?
    ensures InitializeOutcome(InitializeOutcome(g, payer1, account1).value, payer2, account2) == Err(RepeatedInit)
  {
  }
}
