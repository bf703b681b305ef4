/** The token program: fungible tokens and NFTs. Each function gives the post-states of one
    instruction, or the reason the program stops. */
module Token {
  import opened Core

  datatype TokenError =
    | WrongAccountCount
    | MissingAuthorization
    | InvalidHolding
    | InvalidDefinition
    | NotUninitialized
    | DefinitionMismatch
    | KindMismatch
    | InsufficientBalance
    | RecipientBalanceOverflow
    | BalanceOverflow
    | TotalSupplyOverflow
    | TotalSupplyUnderflow
    | PrintableSupplyUnderflow
    | RecipientNotEmpty
    | InvalidNftAmount
    | NotOwned
    | AlreadyOwned
    | CannotMintNft

  type Effect = Result<seq<AccountPostState>, TokenError>

  function AsHolding(data: Data): Result<TokenHolding, TokenError> {
    if data.HoldingData? then Ok(data.holding) else Err(InvalidHolding)
  }

  function AsDefinition(data: Data): Result<TokenDefinition, TokenError> {
    if data.DefinitionData? then Ok(data.definition) else Err(InvalidDefinition)
  }

  function ZeroizedClone(h: TokenHolding): TokenHolding {
    match h
    case Fungible(d, _) => Fungible(d, 0)
    case NftMaster(d, _) => NftMaster(d, 0)
    case NftPrintedCopy(d, _) => NftPrintedCopy(d, false)
  }

  function ZeroizedFromDefinition(id: AccountId, definition: TokenDefinition): TokenHolding {
    match definition
    case FungibleDefinition(_, _, _) => Fungible(id, 0)
    case NonFungibleDefinition(_, _, _) => NftPrintedCopy(id, false)
  }

  function WithHolding(account: Account, h: TokenHolding): Account {
    account.(data := HoldingData(h))
  }

  function WithDefinition(account: Account, d: TokenDefinition): Account {
    account.(data := DefinitionData(d))
  }

  // ------------------------------------------------------------- measuring

  /** Token units in a holding of any kind. */
  function Held(data: Data): nat {
    if !data.HoldingData? then 0
    else match data.holding
    case Fungible(_, balance) => balance
    case NftMaster(_, left) => left
    case NftPrintedCopy(_, owned) => if owned then 1 else 0
  }

  /** Supply a definition declares. */
  function Declared(data: Data): nat {
    if !data.DefinitionData? then 0
    else match data.definition
    case FungibleDefinition(_, supply, _) => supply
    case NonFungibleDefinition(_, supply, _) => supply
  }

  /** Nothing but the data differs. */
  predicate OnlyData(pre: Account, post: Account) {
    post == pre.(data := post.data)
  }

  // --------------------------------------------------------------- transfer

  /** Moves `amount` between two holdings of the same kind. */
  function Move(sender: TokenHolding, recipient: TokenHolding, amount: u128)
      : Result<(TokenHolding, TokenHolding), TokenError>
  {
    match (sender, recipient)
    case (Fungible(_, from), Fungible(_, to)) =>
      if from < amount then Err(InsufficientBalance)
      else if to + amount >= U128_LIMIT then Err(RecipientBalanceOverflow)
      else Ok((sender.(balance := from - amount), recipient.(balance := to + amount)))
    case (NftMaster(_, from), NftMaster(_, to)) =>
      if to != 0 then Err(RecipientNotEmpty)
      else if from != amount then Err(InvalidNftAmount)
      else Ok((sender.(printBalance := to), recipient.(printBalance := from)))
    case (NftPrintedCopy(_, from), NftPrintedCopy(_, to)) =>
      if amount != 1 then Err(InvalidNftAmount)
      else if !from then Err(NotOwned)
      else if to then Err(AlreadyOwned)
      else Ok((sender.(owned := false), recipient.(owned := true)))
    case _ => Err(KindMismatch)
  }

  function TransferEffect(sender: AccountWithMetadata, recipient: AccountWithMetadata, amount: u128): Effect {
    if !sender.isAuthorized then Err(MissingAuthorization) else
    var from :- AsHolding(sender.account.data);
    var to :- if recipient.account == DEFAULT_ACCOUNT then Ok(ZeroizedClone(from)) else AsHolding(recipient.account.data);
    if from.definitionId != to.definitionId then Err(DefinitionMismatch) else
    var moved :- Move(from, to, amount);
    Ok([Unclaimed(WithHolding(sender.account, moved.0)),
        ClaimedIfDefault(WithHolding(recipient.account, moved.1), Authorized)])
  }

  // ------------------------------------------------------------------- burn

  function Destroy(definition: TokenDefinition, holding: TokenHolding, amount: u128)
      : Result<(TokenDefinition, TokenHolding), TokenError>
  {
    match (definition, holding)
    case (FungibleDefinition(_, supply, _), Fungible(_, balance)) =>
      if balance < amount then Err(InsufficientBalance)
      else if supply < amount then Err(TotalSupplyUnderflow)
      else Ok((definition.(totalSupply := supply - amount), holding.(balance := balance - amount)))
    case (NonFungibleDefinition(_, supply, _), NftMaster(_, left)) =>
      if supply < amount then Err(PrintableSupplyUnderflow)
      else if left < amount then Err(InsufficientBalance)
      else Ok((definition.(printableSupply := supply - amount), holding.(printBalance := left - amount)))
    case (NonFungibleDefinition(_, supply, _), NftPrintedCopy(_, owned)) =>
      if amount != 1 then Err(InvalidNftAmount)
      else if !owned then Err(NotOwned)
      else if supply < 1 then Err(PrintableSupplyUnderflow)
      else Ok((definition.(printableSupply := supply - 1), holding.(owned := false)))
    case _ => Err(KindMismatch)
  }

  function BurnEffect(definition: AccountWithMetadata, holder: AccountWithMetadata, amount: u128): Effect {
    if !holder.isAuthorized then Err(MissingAuthorization) else
    var d :- AsDefinition(definition.account.data);
    var h :- AsHolding(holder.account.data);
    if definition.id != h.definitionId then Err(DefinitionMismatch) else
    var destroyed :- Destroy(d, h, amount);
    Ok([Unclaimed(WithDefinition(definition.account, destroyed.0)),
        Unclaimed(WithHolding(holder.account, destroyed.1))])
  }

  // ------------------------------------------------------------------- mint

  function Create(definition: TokenDefinition, holding: TokenHolding, amount: u128)
      : Result<(TokenDefinition, TokenHolding), TokenError>
  {
    match (definition, holding)
    case (FungibleDefinition(_, supply, _), Fungible(_, balance)) =>
      if balance + amount >= U128_LIMIT then Err(BalanceOverflow)
      else if supply + amount >= U128_LIMIT then Err(TotalSupplyOverflow)
      else Ok((definition.(totalSupply := supply + amount), holding.(balance := balance + amount)))
    case (NonFungibleDefinition(_, _, _), NftMaster(_, _)) => Err(CannotMintNft)
    case (NonFungibleDefinition(_, _, _), NftPrintedCopy(_, _)) => Err(CannotMintNft)
    case _ => Err(KindMismatch)
  }

  function MintEffect(definition: AccountWithMetadata, holder: AccountWithMetadata, amount: u128): Effect {
    if !definition.isAuthorized then Err(MissingAuthorization) else
    var d :- AsDefinition(definition.account.data);
    var h :- if holder.account == DEFAULT_ACCOUNT then Ok(ZeroizedFromDefinition(definition.id, d))
             else AsHolding(holder.account.data);
    if definition.id != h.definitionId then Err(DefinitionMismatch) else
    var created :- Create(d, h, amount);
    Ok([Unclaimed(WithDefinition(definition.account, created.0)),
        ClaimedIfDefault(WithHolding(holder.account, created.1), Authorized)])
  }

  // ------------------------------------------------------------------ print

  function PrintEffect(master: AccountWithMetadata, printed: AccountWithMetadata): Effect {
    if !master.isAuthorized then Err(MissingAuthorization) else
    if printed.account != DEFAULT_ACCOUNT then Err(NotUninitialized) else
    var h :- AsHolding(master.account.data);
    if !h.NftMaster? then Err(KindMismatch)
    else if h.printBalance <= 1 then Err(InsufficientBalance)
    else Ok([Unclaimed(WithHolding(master.account, h.(printBalance := h.printBalance - 1))),
             Claimed(WithHolding(printed.account, NftPrintedCopy(h.definitionId, true)), Authorized)])
  }

  // ------------------------------------------------ definitions and holdings

  function NewFungibleEffect(definition: AccountWithMetadata, holder: AccountWithMetadata,
                             name: string, supply: u128): Effect {
    if definition.account != DEFAULT_ACCOUNT || holder.account != DEFAULT_ACCOUNT then Err(NotUninitialized)
    else Ok([Claimed(WithDefinition(definition.account, FungibleDefinition(name, supply, None)), Authorized),
             Claimed(WithHolding(holder.account, Fungible(definition.id, supply)), Authorized)])
  }

  function NewWithMetadataEffect(definition: AccountWithMetadata, holder: AccountWithMetadata,
                                 metadata: AccountWithMetadata, requested: NewTokenDefinition,
                                 details: NewTokenMetadata): Effect
  {
    if definition.account != DEFAULT_ACCOUNT || holder.account != DEFAULT_ACCOUNT || metadata.account != DEFAULT_ACCOUNT
    then Err(NotUninitialized)
    else
      var (d, h) := match requested
        case NewFungible(name, supply) =>
          (FungibleDefinition(name, supply, Some(metadata.id)), Fungible(definition.id, supply))
        case NewNonFungible(name, supply) =>
          (NonFungibleDefinition(name, supply, metadata.id), NftMaster(definition.id, supply));
      var m := TokenMetadata(definition.id, details.standard, details.uri, details.creators, 0);
      Ok([Claimed(WithDefinition(definition.account, d), Authorized),
          Claimed(WithHolding(holder.account, h), Authorized),
          Claimed(metadata.account.(data := MetadataData(m)), Authorized)])
  }

  function InitializeEffect(definition: AccountWithMetadata, target: AccountWithMetadata): Effect {
    if target.account != DEFAULT_ACCOUNT then Err(NotUninitialized) else
    var d :- AsDefinition(definition.account.data);
    Ok([Unclaimed(definition.account),
        Claimed(WithHolding(target.account, ZeroizedFromDefinition(definition.id, d)), Authorized)])
  }

  // --------------------------------------------------------------- the program

  function Effects(pres: seq<AccountWithMetadata>, instruction: TokenInstruction): Effect {
    if |pres| != (if instruction.NewDefinitionWithMetadata? then 3 else 2) then Err(WrongAccountCount)
    else match instruction
    case Transfer(amount) => TransferEffect(pres[0], pres[1], amount)
    case NewFungibleDefinition(name, supply) => NewFungibleEffect(pres[0], pres[1], name, supply)
    case NewDefinitionWithMetadata(d, m) => NewWithMetadataEffect(pres[0], pres[1], pres[2], d, m)
    case InitializeAccount => InitializeEffect(pres[0], pres[1])
    case Burn(amount) => BurnEffect(pres[0], pres[1], amount)
    case Mint(amount) => MintEffect(pres[0], pres[1], amount)
    case PrintNft => PrintEffect(pres[0], pres[1])
  }

  /** What executing the token program outputs; it chains no calls. */
  function TokenProgram(self: ProgramId, caller: Option<ProgramId>,
                        pres: seq<AccountWithMetadata>, instruction: Instruction)
      : Option<ProgramOutput>
  {
    if !instruction.TokenCall? then None
    else
      match Effects(pres, instruction.token)
      case Err(_) => None
      case Ok(posts) => Some(ProgramOutput(self, caller, pres, posts, [], UNBOUNDED, UNBOUNDED))
  }

  // --------------------------------------------------- the in-place programs

  /** `transfer`, updating its two holdings in place: the amount leaves one and arrives at the other. */
  method TransferInPlace(sender: AccountWithMetadata, recipient: AccountWithMetadata, amount: u128) returns (r: Effect)
    ensures r == TransferEffect(sender, recipient, amount)
    ensures r.Ok? ==>
      && sender.isAuthorized && |r.value| == 2
      && OnlyData(sender.account, r.value[0].account) && OnlyData(recipient.account, r.value[1].account)
      && Held(r.value[0].account.data) + amount == Held(sender.account.data)
      && Held(r.value[1].account.data) == Held(recipient.account.data) + amount
  {
    if !sender.isAuthorized {
      return Err(MissingAuthorization);
    }
    if !sender.account.data.HoldingData? {
      return Err(InvalidHolding);
    }
    var senderHolding := sender.account.data.holding;
    var recipientHolding;
    if recipient.account == DEFAULT_ACCOUNT {
      recipientHolding := ZeroizedClone(senderHolding);
    } else if recipient.account.data.HoldingData? {
      recipientHolding := recipient.account.data.holding;
    } else {
      return Err(InvalidHolding);
    }
    if senderHolding.definitionId != recipientHolding.definitionId {
      return Err(DefinitionMismatch);
    }
    match (senderHolding, recipientHolding) {
      case (Fungible(_, from), Fungible(_, to)) =>
        if from < amount {
          return Err(InsufficientBalance);
        }
        senderHolding := senderHolding.(balance := from - amount);
        if to + amount >= U128_LIMIT {
          return Err(RecipientBalanceOverflow);
        }
        recipientHolding := recipientHolding.(balance := to + amount);
      case (NftMaster(_, from), NftMaster(_, to)) =>
        if to != 0 {
          return Err(RecipientNotEmpty);
        }
        if from != amount {
          return Err(InvalidNftAmount);
        }
        senderHolding, recipientHolding := senderHolding.(printBalance := to), recipientHolding.(printBalance := from);
      case (NftPrintedCopy(_, from), NftPrintedCopy(_, to)) =>
        if amount != 1 {
          return Err(InvalidNftAmount);
        }
        if !from {
          return Err(NotOwned);
        }
        if to {
          return Err(AlreadyOwned);
        }
        senderHolding := senderHolding.(owned := false);
        recipientHolding := recipientHolding.(owned := true);
      case _ =>
        return Err(KindMismatch);
    }
    var senderPost := sender.account.(data := HoldingData(senderHolding));
    var recipientPost := recipient.account.(data := HoldingData(recipientHolding));
    return Ok([Unclaimed(senderPost), ClaimedIfDefault(recipientPost, Authorized)]);
  }

  /** `burn`, updating the definition's supply and the holding in place: both fall by the amount. */
  method BurnInPlace(definition: AccountWithMetadata, holder: AccountWithMetadata, amount: u128) returns (r: Effect)
    ensures r == BurnEffect(definition, holder, amount)
    ensures r.Ok? ==>
      && holder.isAuthorized && |r.value| == 2
      && OnlyData(definition.account, r.value[0].account) && OnlyData(holder.account, r.value[1].account)
      && Declared(r.value[0].account.data) + amount == Declared(definition.account.data)
      && Held(r.value[1].account.data) + amount == Held(holder.account.data)
  {
    if !holder.isAuthorized {
      return Err(MissingAuthorization);
    }
    if !definition.account.data.DefinitionData? {
      return Err(InvalidDefinition);
    }
    if !holder.account.data.HoldingData? {
      return Err(InvalidHolding);
    }
    var d, h := definition.account.data.definition, holder.account.data.holding;
    if definition.id != h.definitionId {
      return Err(DefinitionMismatch);
    }
    match (d, h) {
      case (FungibleDefinition(_, supply, _), Fungible(_, balance)) =>
        if balance < amount {
          return Err(InsufficientBalance);
        }
        h := h.(balance := balance - amount);
        if supply < amount {
          return Err(TotalSupplyUnderflow);
        }
        d := d.(totalSupply := supply - amount);
      case (NonFungibleDefinition(_, supply, _), NftMaster(_, left)) =>
        if supply < amount {
          return Err(PrintableSupplyUnderflow);
        }
        d := d.(printableSupply := supply - amount);
        if left < amount {
          return Err(InsufficientBalance);
        }
        h := h.(printBalance := left - amount);
      case (NonFungibleDefinition(_, supply, _), NftPrintedCopy(_, owned)) =>
        if amount != 1 {
          return Err(InvalidNftAmount);
        }
        if !owned {
          return Err(NotOwned);
        }
        if supply < 1 {
          return Err(PrintableSupplyUnderflow);
        }
        d := d.(printableSupply := supply - 1);
        h := h.(owned := false);
      case _ =>
        return Err(KindMismatch);
    }
    return Ok([Unclaimed(definition.account.(data := DefinitionData(d))),
        Unclaimed(holder.account.(data := HoldingData(h)))]);
  }

  /** `mint`, updating the holding and the definition's supply in place: both rise by the amount. */
  method MintInPlace(definition: AccountWithMetadata, holder: AccountWithMetadata, amount: u128) returns (r: Effect)
    ensures r == MintEffect(definition, holder, amount)
    ensures r.Ok? ==>
      && definition.isAuthorized && |r.value| == 2
      && OnlyData(definition.account, r.value[0].account) && OnlyData(holder.account, r.value[1].account)
      && Declared(r.value[0].account.data) == Declared(definition.account.data) + amount
      && Held(r.value[1].account.data) == Held(holder.account.data) + amount
  {
    if !definition.isAuthorized {
      return Err(MissingAuthorization);
    }
    if !definition.account.data.DefinitionData? {
      return Err(InvalidDefinition);
    }
    var d := definition.account.data.definition;
    var h;
    if holder.account == DEFAULT_ACCOUNT {
      h := ZeroizedFromDefinition(definition.id, d);
    } else if holder.account.data.HoldingData? {
      h := holder.account.data.holding;
    } else {
      return Err(InvalidHolding);
    }
    if definition.id != h.definitionId {
      return Err(DefinitionMismatch);
    }
    match (d, h) {
      case (FungibleDefinition(_, supply, _), Fungible(_, balance)) =>
        if balance + amount >= U128_LIMIT {
          return Err(BalanceOverflow);
        }
        h := h.(balance := balance + amount);
        if supply + amount >= U128_LIMIT {
          return Err(TotalSupplyOverflow);
        }
        d := d.(totalSupply := supply + amount);
      case (NonFungibleDefinition(_, _, _), NftMaster(_, _)) =>
        return Err(CannotMintNft);
      case (NonFungibleDefinition(_, _, _), NftPrintedCopy(_, _)) =>
        return Err(CannotMintNft);
      case _ =>
        return Err(KindMismatch);
    }
    return Ok([Unclaimed(definition.account.(data := DefinitionData(d))),
               ClaimedIfDefault(holder.account.(data := HoldingData(h)), Authorized)]);
  }

  /** `print_nft`, decrementing the master's print balance in place: one unit becomes an owned copy, and the
      master keeps at least one. */
  method PrintInPlace(master: AccountWithMetadata, printed: AccountWithMetadata) returns (r: Effect)
    ensures r == PrintEffect(master, printed)
    ensures r.Ok? ==>
      && master.isAuthorized && |r.value| == 2
      && OnlyData(master.account, r.value[0].account) && OnlyData(printed.account, r.value[1].account)
      && Held(master.account.data) == Held(r.value[0].account.data) + 1 && Held(r.value[0].account.data) >= 1
      && Held(printed.account.data) == 0 && Held(r.value[1].account.data) == 1
  {
    if !master.isAuthorized {
      return Err(MissingAuthorization);
    }
    if printed.account != DEFAULT_ACCOUNT {
      return Err(NotUninitialized);
    }
    if !master.account.data.HoldingData? {
      return Err(InvalidHolding);
    }
    var h := master.account.data.holding;
    if !h.NftMaster? {
      return Err(KindMismatch);
    }
    var definitionId := h.definitionId;
    if h.printBalance <= 1 {
      return Err(InsufficientBalance);
    }
    h := h.(printBalance := h.printBalance - 1);
    return Ok([Unclaimed(master.account.(data := HoldingData(h))),
               Claimed(printed.account.(data := HoldingData(NftPrintedCopy(definitionId, true))), Authorized)]);
  }

  /** The guest's dispatch: instructions that update in place go to their methods. */
  method Dispatch(self: ProgramId, caller: Option<ProgramId>, pres: seq<AccountWithMetadata>, instruction: Instruction)
    returns (r: Option<ProgramOutput>)
    ensures r == TokenProgram(self, caller, pres, instruction)
    ensures r.Some? ==>
      && r.value.chainedCalls == [] && r.value.preStates == pres && |r.value.postStates| == |pres|
      && forall i :: 0 <= i < |pres| ==> OnlyData(pres[i].account, r.value.postStates[i].account)
  {
    if !instruction.TokenCall? {
      return None;
    }
    var effect: Effect;
    if |pres| == 3 {
      match instruction.token
      case NewDefinitionWithMetadata(d, m) => effect := NewWithMetadataEffect(pres[0], pres[1], pres[2], d, m);
      case _ => effect := Err(WrongAccountCount);
    } else if |pres| != 2 {
      effect := Err(WrongAccountCount);
    } else {
      match instruction.token
      case Transfer(amount) => effect := TransferInPlace(pres[0], pres[1], amount);
      case NewFungibleDefinition(name, supply) => effect := NewFungibleEffect(pres[0], pres[1], name, supply);
      case NewDefinitionWithMetadata(_, _) => effect := Err(WrongAccountCount);
      case InitializeAccount => effect := InitializeEffect(pres[0], pres[1]);
      case Burn(amount) => effect := BurnInPlace(pres[0], pres[1], amount);
      case Mint(amount) => effect := MintInPlace(pres[0], pres[1], amount);
      case PrintNft => effect := PrintInPlace(pres[0], pres[1]);
    }
    if effect.Err? {
      return None;
    }
    return Some(ProgramOutput(self, caller, pres, effect.value, [], UNBOUNDED, UNBOUNDED));
  }
}
