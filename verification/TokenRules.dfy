/** Exactly when the token program accepts each instruction, and exactly when the chain accepts a transfer. */
module TokenRules {
  import opened Core
  import opened Token

  /** A holding of the same definition and kind with the given units. */
  function WithUnits(h: TokenHolding, units: u128): TokenHolding {
    match h
    case Fungible(d, _) => Fungible(d, units)
    case NftMaster(d, _) => NftMaster(d, units)
    case NftPrintedCopy(d, _) => NftPrintedCopy(d, units != 0)
  }

  /** The same definition with the given supply. */
  function WithSupply(d: TokenDefinition, supply: u128): TokenDefinition {
    match d
    case FungibleDefinition(name, _, metadata) => FungibleDefinition(name, supply, metadata)
    case NonFungibleDefinition(name, _, metadata) => NonFungibleDefinition(name, supply, metadata)
  }

  predicate SameKind(x: TokenHolding, y: TokenHolding) {
    (x.Fungible? && y.Fungible?) || (x.NftMaster? && y.NftMaster?) || (x.NftPrintedCopy? && y.NftPrintedCopy?)
  }

  /** A holding of this definition and kind, or an account nobody has used. */
  predicate Receives(h: TokenHolding, recipient: Account) {
    || recipient == DEFAULT_ACCOUNT
    || (recipient.data.HoldingData? && recipient.data.holding.definitionId == h.definitionId
        && SameKind(recipient.data.holding, h))
  }

  /** The account as it was but for its data, claimed if it has no owner. */
  predicate Rewritten(pre: AccountWithMetadata, post: AccountPostState, data: Data, claimed: bool) {
    && post.account.owner == pre.account.owner && post.account.balance == pre.account.balance
    && post.account.nonce == pre.account.nonce && post.account.data == data
    && post.claim == (if claimed then Some(Authorized) else None)
  }

  // -------------------------------------------------------------------- transfer

  predicate CanTransfer(sender: AccountWithMetadata, recipient: AccountWithMetadata, amount: u128) {
    && sender.isAuthorized && sender.account.data.HoldingData?
    && Receives(sender.account.data.holding, recipient.account)
    && match sender.account.data.holding
       case Fungible(_, balance) => amount <= balance && Held(recipient.account.data) + amount < U128_LIMIT
       case NftMaster(_, left) => amount == left && Held(recipient.account.data) == 0
       case NftPrintedCopy(_, owned) => amount == 1 && owned && Held(recipient.account.data) == 0
  }

  /** A transfer succeeds if and only if the sender authorized it, the recipient can hold the token, and the amount
      is one the sender has and the recipient has room for: any for coins, all of it for a master, one for a copy.
      Then exactly the amount changes hands. */
  lemma TransferExactly(sender: AccountWithMetadata, recipient: AccountWithMetadata, amount: u128)
    ensures TransferEffect(sender, recipient, amount).Ok? <==> CanTransfer(sender, recipient, amount)
    ensures TransferEffect(sender, recipient, amount).Ok? ==>
      var posts, h := TransferEffect(sender, recipient, amount).value, sender.account.data.holding;
      && |posts| == 2 && amount <= Held(sender.account.data) && Held(recipient.account.data) + amount < U128_LIMIT
      && Rewritten(sender, posts[0], HoldingData(WithUnits(h, Held(sender.account.data) - amount)), false)
      && Rewritten(recipient, posts[1], HoldingData(WithUnits(h, Held(recipient.account.data) + amount)),
                   recipient.account.owner == DEFAULT_PROGRAM_ID)
  {
  }

  // ------------------------------------------------------------------------ burn

  predicate OfDefinition(definition: AccountWithMetadata, holder: Account) {
    && definition.account.data.DefinitionData? && holder.data.HoldingData?
    && holder.data.holding.definitionId == definition.id
    && (holder.data.holding.Fungible? <==> definition.account.data.definition.FungibleDefinition?)
  }

  predicate CanBurn(definition: AccountWithMetadata, holder: AccountWithMetadata, amount: u128) {
    && holder.isAuthorized && OfDefinition(definition, holder.account)
    && amount <= Held(holder.account.data) && amount <= Declared(definition.account.data)
    && (holder.account.data.holding.NftPrintedCopy? ==> amount == 1)
  }

  /** A burn succeeds if and only if the holder authorized it, holds this definition's token, has the amount, and the
      definition declares it. Then both fall by it. */
  lemma BurnExactly(definition: AccountWithMetadata, holder: AccountWithMetadata, amount: u128)
    ensures BurnEffect(definition, holder, amount).Ok? <==> CanBurn(definition, holder, amount)
    ensures BurnEffect(definition, holder, amount).Ok? ==>
      var posts := BurnEffect(definition, holder, amount).value;
      && |posts| == 2 && amount <= Held(holder.account.data) && amount <= Declared(definition.account.data)
      && Rewritten(definition, posts[0],
                   DefinitionData(WithSupply(definition.account.data.definition,
                                             Declared(definition.account.data) - amount)), false)
      && Rewritten(holder, posts[1],
                   HoldingData(WithUnits(holder.account.data.holding, Held(holder.account.data) - amount)), false)
  {
  }

  // ------------------------------------------------------------------------ mint

  predicate CanMint(definition: AccountWithMetadata, holder: AccountWithMetadata, amount: u128) {
    && definition.isAuthorized
    && definition.account.data.DefinitionData? && definition.account.data.definition.FungibleDefinition?
    && Receives(Fungible(definition.id, 0), holder.account)
    && Held(holder.account.data) + amount < U128_LIMIT && Declared(definition.account.data) + amount < U128_LIMIT
  }

  /** A mint succeeds if and only if the definition authorized it, is fungible, the holder can hold it, and neither
      holding nor supply overflows. Then both rise by it. */
  lemma MintExactly(definition: AccountWithMetadata, holder: AccountWithMetadata, amount: u128)
    ensures MintEffect(definition, holder, amount).Ok? <==> CanMint(definition, holder, amount)
    ensures MintEffect(definition, holder, amount).Ok? ==>
      var posts := MintEffect(definition, holder, amount).value;
      && |posts| == 2
      && Held(holder.account.data) + amount < U128_LIMIT && Declared(definition.account.data) + amount < U128_LIMIT
      && Rewritten(definition, posts[0],
                   DefinitionData(WithSupply(definition.account.data.definition,
                                             Declared(definition.account.data) + amount)), false)
      && Rewritten(holder, posts[1], HoldingData(Fungible(definition.id, Held(holder.account.data) + amount)),
                   holder.account.owner == DEFAULT_PROGRAM_ID)
  {
  }

  // ----------------------------------------------------------------------- print

  predicate CanPrint(master: AccountWithMetadata, printed: AccountWithMetadata) {
    && master.isAuthorized && printed.account == DEFAULT_ACCOUNT
    && master.account.data.HoldingData? && master.account.data.holding.NftMaster?
    && Held(master.account.data) >= 2
  }

  /** A copy is printed if and only if the master authorized it, keeps at least one unit, and the copy's account is
      unused. Then one unit of the master becomes an owned copy. */
  lemma PrintExactly(master: AccountWithMetadata, printed: AccountWithMetadata)
    ensures PrintEffect(master, printed).Ok? <==> CanPrint(master, printed)
    ensures PrintEffect(master, printed).Ok? ==>
      var posts, h := PrintEffect(master, printed).value, master.account.data.holding;
      && |posts| == 2 && Held(master.account.data) >= 2
      && Rewritten(master, posts[0], HoldingData(NftMaster(h.definitionId, Held(master.account.data) - 1)), false)
      && Rewritten(printed, posts[1], HoldingData(NftPrintedCopy(h.definitionId, true)), true)
  {
  }

  // ---------------------------------------------------- definitions and holdings

  /** The definition and the first holding of a new token. */
  predicate Founds(requested: NewTokenDefinition, id: AccountId,
                   metadata: Option<AccountId>, d: TokenDefinition, h: TokenHolding) {
    match requested
    case NewFungible(name, supply) => d == FungibleDefinition(name, supply, metadata) && h == Fungible(id, supply)
    case NewNonFungible(name, supply) =>
      metadata.Some? && d == NonFungibleDefinition(name, supply, metadata.value) && h == NftMaster(id, supply)
  }

  /** A token is created if and only if its accounts are unused; the whole supply is in the first holding. */
  lemma CreationExactly(definition: AccountWithMetadata, holder: AccountWithMetadata, name: string, supply: u128)
    ensures NewFungibleEffect(definition, holder, name, supply).Ok?
       <==> definition.account == holder.account == DEFAULT_ACCOUNT
    ensures NewFungibleEffect(definition, holder, name, supply).Ok? ==>
      var posts := NewFungibleEffect(definition, holder, name, supply).value;
      && |posts| == 2 && posts[0].account.data.DefinitionData? && posts[1].account.data.HoldingData?
      && Rewritten(definition, posts[0], posts[0].account.data, true)
      && Rewritten(holder, posts[1], posts[1].account.data, true)
      && Founds(NewFungible(name, supply), definition.id, None,
                posts[0].account.data.definition, posts[1].account.data.holding)
  {
  }

  lemma CreationWithMetadataExactly(definition: AccountWithMetadata,
                                    holder: AccountWithMetadata, metadata: AccountWithMetadata,
                                    requested: NewTokenDefinition, details: NewTokenMetadata)
    ensures NewWithMetadataEffect(definition, holder, metadata, requested, details).Ok?
       <==> definition.account == holder.account == metadata.account == DEFAULT_ACCOUNT
    ensures NewWithMetadataEffect(definition, holder, metadata, requested, details).Ok? ==>
      var posts := NewWithMetadataEffect(definition, holder, metadata, requested, details).value;
      && |posts| == 3 && posts[0].account.data.DefinitionData? && posts[1].account.data.HoldingData?
      && Rewritten(definition, posts[0], posts[0].account.data, true)
      && Rewritten(holder, posts[1], posts[1].account.data, true)
      && Rewritten(metadata, posts[2], MetadataData(TokenMetadata(definition.id, details.standard, details.uri,
                                                                  details.creators, 0)), true)
      && Founds(requested, definition.id, Some(metadata.id),
                posts[0].account.data.definition, posts[1].account.data.holding)
  {
  }

  /** An account is opened if and only if it is unused and the other account is a definition; it starts empty. */
  lemma InitializeExactly(definition: AccountWithMetadata, target: AccountWithMetadata)
    ensures InitializeEffect(definition, target).Ok?
       <==> target.account == DEFAULT_ACCOUNT && definition.account.data.DefinitionData?
    ensures InitializeEffect(definition, target).Ok? ==>
      var posts := InitializeEffect(definition, target).value;
      && |posts| == 2
      && Rewritten(definition, posts[0], definition.account.data, false)
      && Rewritten(target, posts[1], posts[1].account.data, true)
      && OfDefinition(definition, posts[1].account) && Held(posts[1].account.data) == 0
      && !posts[1].account.data.holding.NftMaster?
  {
  }

  // --------------------------------------------------------------------- the program

  /** What the token program asks of each instruction, on the accounts it is given. */
  predicate TokenAccepts(pres: seq<AccountWithMetadata>, instruction: TokenInstruction) {
    && |pres| == (if instruction.NewDefinitionWithMetadata? then 3 else 2)
    && match instruction
       case Transfer(amount) => CanTransfer(pres[0], pres[1], amount)
       case NewFungibleDefinition(_, _) => pres[0].account == pres[1].account == DEFAULT_ACCOUNT
       case NewDefinitionWithMetadata(_, _) => pres[0].account == pres[1].account == pres[2].account == DEFAULT_ACCOUNT
       case InitializeAccount => pres[0].account.data.DefinitionData? && pres[1].account == DEFAULT_ACCOUNT
       case Burn(amount) => CanBurn(pres[0], pres[1], amount)
       case Mint(amount) => CanMint(pres[0], pres[1], amount)
       case PrintNft => CanPrint(pres[0], pres[1])
  }

  /** The token program answers if and only if it is asked for a token instruction it accepts; it reports the accounts
      as it was given them, chains nothing and sets no validity window. */
  lemma TokenAnswersExactly(self: ProgramId, caller: Option<ProgramId>,
                            pres: seq<AccountWithMetadata>, instruction: Instruction)
    ensures TokenProgram(self, caller, pres, instruction).Some?
       <==> instruction.TokenCall? && TokenAccepts(pres, instruction.token)
    ensures TokenProgram(self, caller, pres, instruction).Some? ==>
      var output := TokenProgram(self, caller, pres, instruction).value;
      && output.selfProgramId == self && output.callerProgramId == caller && output.preStates == pres
      && output.chainedCalls == [] && output.blockWindow == output.timestampWindow == ValidityWindow(None, None)
  {
    hide TransferEffect, BurnEffect, MintEffect, PrintEffect, CanTransfer, CanBurn, CanMint, CanPrint;
    if instruction.TokenCall? {
      match instruction.token
      case Transfer(amount) =>
        if |pres| == 2 {
          TransferExactly(pres[0], pres[1], amount);
        }
      case Burn(amount) =>
        if |pres| == 2 {
          BurnExactly(pres[0], pres[1], amount);
        }
      case Mint(amount) =>
        if |pres| == 2 {
          MintExactly(pres[0], pres[1], amount);
        }
      case PrintNft =>
        if |pres| == 2 {
          PrintExactly(pres[0], pres[1]);
        }
      case _ =>
    }
  }
}
