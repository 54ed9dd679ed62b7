/** Money transfers of a resident user (src/Account.cpp, `Give` in src/Tip.cpp):
    guards in their order, opening the receiver through the pool on the way,
    and the proof that the sender's RPC pointer never dangles. */
module Accounts {
  import opened Recency
  import opened RpcManager
  import opened Sets
  import opened Types
  import opened Wrappers

  datatype Payment = Payment(fromWallet: DiscordID, to: Address, amount: nat)

  datatype Error =
    | ResyncError        // the wallet does not answer
    | NotEnoughForFee    // the amount is the whole unlocked balance
    | NotEnough
    | ZeroAmount
    | NoReceiver
    | ReceiverError      // opening the receiver failed
    | ToYourself
    | InvalidAddress
    | TransferError      // the wallet refused the transfer

  /** An exception after the money has left is told apart from one before. */
  datatype Outcome = Sent(payment: Payment) | SentWithoutNote(payment: Payment) | Refused(error: Error)

  /** What the wallets answer during one transfer. */
  datatype Answers = Answers(resync: ResyncReply, receiver: Replies, validLength: bool, transfer: bool, note: bool)

  /** The guards of a transfer to an address, in the order of the source. */
  method CheckAddressTransfer(amount: nat, unlocked: nat, address: Address, own: Address, validLength: bool)
    returns (refused: Option<Error>)
    ensures refused.None? <==> validLength && 0 < amount < unlocked && address != NoAddress && address != own
    ensures refused == Some(InvalidAddress) <==> !validLength
    ensures validLength ==> (refused == Some(NotEnoughForFee) <==> amount == unlocked)
                            && (refused == Some(NotEnough) <==> amount > unlocked)
                            && (refused == Some(ZeroAmount) <==> amount == 0 < unlocked)
    ensures validLength && 0 < amount < unlocked ==>
              && (refused == Some(NoReceiver) <==> address == NoAddress)
              && (refused == Some(ToYourself) <==> address == own != NoAddress)
  {
    if !validLength {
      return Some(InvalidAddress);
    }
    if amount == unlocked {
      return Some(NotEnoughForFee);
    }
    if amount > unlocked {
      return Some(NotEnough);
    }
    if amount == 0 {
      return Some(ZeroAmount);
    }
    if address == NoAddress {
      return Some(NoReceiver);
    }
    if address == own {
      return Some(ToYourself);
    }
    return None;
  }

  /** The sender holds its wallet and can outlast `others` being opened. */
  ghost predicate SenderSafe(m: RPCManager, sender: DiscordID, others: set<DiscordID>)
    reads m
  {
    m.Inv() && m.Now().Owns(sender) && Sheltered(StampsOf(m.rpcMap), sender, others)
  }

  /** Serving a user later than anyone before makes it a safe sender: every command
      of a user starts like this. */
  method OpenSender(m: RPCManager, sender: DiscordID, launchTime: int, now: int, r: Replies) returns (result: Result)
    requires m.Inv() && forall k :: k in m.rpcMap ==> m.rpcMap[k].timestamp < now
    modifies m
    ensures m.Inv() && (result.Ok? <==> old(m.Now()).Serves(sender, r))
    ensures m.launched <= old(m.launched) + 1
    ensures result.Ok? ==> SenderSafe(m, sender, {}) && m.rpcMap[sender].timestamp == now
  {
    ghost var was := m.Now();
    result := m.GetAccount(sender, launchTime, now, r);
    hide RPCManager.Inv, MayBecome, Touch, Sheltered, StampsOf;
    if result.Ok? {
      LatestIsSheltered(was.entries, m.rpcMap, m.limit, sender, launchTime, now);
    }
  }

  lemma LatestIsSheltered(was: Entries, now: Entries, limit: nat, sender: DiscordID, launchTime: int, t: int)
    requires 0 < limit && forall k :: k in was ==> was[k].timestamp < t
    requires StampsOf(now) == Touch(StampsOf(was), limit, sender, launchTime, t)
    ensures Sheltered(StampsOf(now), sender, {}) && sender in now && now[sender].timestamp == t
  {
    var before, after := StampsOf(was), StampsOf(now);
    assert sender in after && after[sender] == t;
    forall k | k in after && k != sender ensures after[k] < t {
      assert k in before && after[k] == before[k];
    }
  }

  /** Refreshing the sender's balances changes nothing else. */
  method Resync(m: RPCManager, sender: DiscordID, reply: ResyncReply, ghost others: set<DiscordID>) returns (ok: bool)
    requires SenderSafe(m, sender, others)
    modifies m`rpcMap
    ensures SenderSafe(m, sender, others) && StampsOf(m.rpcMap) == StampsOf(old(m.rpcMap))
    ensures ok <==> reply.Synced?
    ensures m.rpcMap[sender].timestamp == old(m.rpcMap)[sender].timestamp
    ensures forall k, r :: k != sender ==> (m.Now().Serves(k, r) <==> old(m.Now()).Serves(k, r))
    ensures ok ==> m.rpcMap[sender].account ==
                   Account(RpcOfEntry(sender), sender, reply.balance, reply.unlocked, AddressOf(sender))
  {
    ghost var was := m.Now();
    assert EntryOpened(m.rpcMap[sender], sender);
    hide Consistent, State.PortsHold, Sheltered, StampsOf, OthersKept;
    ok := m.ResyncAccount(sender, reply);
    SameStamps(was, m.Now(), m.startPort, sender);
  }

  /** Sheltered from some, sheltered from more. */
  lemma Widen(m: RPCManager, sender: DiscordID, others: set<DiscordID>, receiver: DiscordID)
    requires SenderSafe(m, sender, others)
    ensures SenderSafe(m, sender, if receiver == sender then others else others + {receiver})
  {
  }

  /** New balances leave ports, owners and stamps as they are. */
  lemma SameStamps(was: State, now: State, start: nat, id: DiscordID)
    requires id in was.entries && Consistent(was.entries) && was.PortsHold(start)
    requires id in now.entries && EntryOpened(now.entries[id], id)
    requires now == was.(entries := was.entries[id := was.entries[id].(account := now.entries[id].account)])
    ensures Consistent(now.entries) && now.PortsHold(start)
    ensures StampsOf(now.entries) == StampsOf(was.entries) && |now.entries| == |was.entries|
  {
    assert Consistent(was.entries - {id});
    hide Consistent, State.PortsHold, StampsOf;
    ChangeKeepsPorts(was, now, start, id);
    ChangeIsConsistent(was, now, id);
    ChangeOfStamps(was, now, id);
    Restamp(StampsOf(was.entries), id);
    assert now.entries.Keys == was.entries.Keys;
  }

  /** Opening a receiver leaves the sender resident and in its own wallet. */
  method OpenReceiver(m: RPCManager, sender: DiscordID, receiver: DiscordID, launchTime: int, now: int, r: Replies,
                      ghost others: set<DiscordID>) returns (result: Result)
    requires SenderSafe(m, sender, others) && m.rpcMap[sender].timestamp <= now
    requires receiver != sender ==> |others + {receiver}| < m.limit
    requires m.startPort + m.launched < PORTS
    modifies m
    ensures SenderSafe(m, sender, if receiver == sender then others else others + {receiver})
    ensures m.launched <= old(m.launched) + 1 && m.rpcMap[sender].timestamp in {old(m.rpcMap)[sender].timestamp, now}
    ensures receiver != sender ==> m.rpcMap[sender] == old(m.rpcMap)[sender]
    ensures result.Ok? <==> old(m.Now()).Serves(receiver, r)
    ensures result.Ok? ==> result.account.discordID == receiver && result.account.myAddress == AddressOf(receiver)
    ensures result.Ok? && receiver == sender ==> m.rpcMap[sender].account.myAddress == AddressOf(sender)
  {
    ghost var was := m.Now();
    result := m.GetAccount(receiver, launchTime, now, r);
    hide RPCManager.Inv, StampsOf, MayBecome, Touch;
    if receiver == sender {
      ServedAgain(was, m.Now(), m.limit, sender, others, launchTime, now);
    } else {
      OutlastsOther(was, m.Now(), m.startPort, m.limit, sender, receiver, others, launchTime, now);
    }
  }

  lemma OutlastsOther(was: State, now: State, start: nat, limit: nat, sender: DiscordID, receiver: DiscordID,
                      others: set<DiscordID>, launchTime: int, t: int)
    requires 0 < limit && |was.entries| <= limit && receiver != sender && |others + {receiver}| < limit
    requires OthersKept(was, now, start, receiver) && start + now.launched <= PORTS && was.Owns(sender)
    requires MayBecome(StampsOf(was.entries), StampsOf(now.entries), limit, receiver, launchTime, t)
    requires Sheltered(StampsOf(was.entries), sender, others)
    ensures Sheltered(StampsOf(now.entries), sender, others + {receiver})
    ensures now.Owns(sender) && now.entries[sender] == was.entries[sender]
  {
    hide MayBecome;
    ShelteredStays(StampsOf(was.entries), StampsOf(now.entries), limit, Request(receiver, launchTime, t),
                   sender, others);
    assert sender in StampsOf(now.entries);
    hide Sheltered, StampsOf;
  }

  lemma ServedAgain(was: State, now: State, limit: nat, sender: DiscordID, others: set<DiscordID>,
                    launchTime: int, t: int)
    requires 0 < limit && was.Owns(sender) && now.Owns(sender) && was.entries[sender].timestamp <= t
    requires MayBecome(StampsOf(was.entries), StampsOf(now.entries), limit, sender, launchTime, t)
    requires Sheltered(StampsOf(was.entries), sender, others)
    ensures Sheltered(StampsOf(now.entries), sender, others)
    ensures now.entries[sender].timestamp in {was.entries[sender].timestamp, t}
  {
    var before, after := StampsOf(was.entries), StampsOf(now.entries);
    assert sender in after;
    if after == before {
    } else {
      assert after == before[sender := t];
    }
  }

  /** What follows the guards: the wallet behind the sender's pointer sends, then the
      note is attached. */
  method Pay(m: RPCManager, sender: DiscordID, amount: nat, address: Address, a: Answers) returns (outcome: Outcome)
    requires m.Inv() && m.Now().Owns(sender)
    ensures outcome.Refused? <==> !a.transfer
    ensures !outcome.Refused? ==> outcome.payment == Payment(sender, address, amount) && (outcome.Sent? <==> a.note)
  {
    hide State.PortsHold;
    var rpcPtr := m.rpcMap[sender].account.rpcPtr;
    var wallet := WalletOn(m.host, m.rpcMap[rpcPtr.id].port);
    if !a.transfer {
      return Refused(TransferError);
    }
    var payment := Payment(wallet.value, address, amount);
    outcome := if a.note then Sent(payment) else SentWithoutNote(payment);
  }

  /** Common to both transfers to a user: open the receiver, check both addresses,
      send through the sender's own RPC, then attach the note. */
  method PayUser(m: RPCManager, sender: DiscordID, amount: nat, receiver: DiscordID, launchTime: int, now: int,
                 a: Answers, ghost others: set<DiscordID>) returns (outcome: Outcome)
    requires SenderSafe(m, sender, others) && m.rpcMap[sender].timestamp <= now
    requires receiver != sender ==> |others + {receiver}| < m.limit
    requires m.startPort + m.launched < PORTS && m.rpcMap[sender].account.myAddress == AddressOf(sender)
    modifies m
    ensures SenderSafe(m, sender, if receiver == sender then others else others + {receiver})
    ensures m.launched <= old(m.launched) + 1 && m.rpcMap[sender].timestamp in {old(m.rpcMap)[sender].timestamp, now}
    ensures outcome.Refused? <==>
            !old(m.Now()).Serves(receiver, a.receiver) || receiver == sender || !a.validLength || !a.transfer
    ensures !outcome.Refused? ==> outcome.payment == Payment(sender, AddressOf(receiver), amount)
    ensures outcome.Sent? ==> a.note
    ensures outcome.SentWithoutNote? ==> !a.note
  {
    var result := OpenReceiver(m, sender, receiver, launchTime, now, a.receiver, others);
    hide StampsOf, Sheltered;
    if result.Thrown? {
      return Refused(ReceiverError);
    }
    var address := AddressOf(receiver);
    if receiver != result.account.discordID {
      assert false;
    }
    if address != result.account.myAddress {
      assert false;
    }
    if address == m.rpcMap[sender].account.myAddress {
      return Refused(ToYourself);
    }
    if !a.validLength {
      return Refused(InvalidAddress);
    }
    // The pointer set when the sender was opened still leads to the sender's entry.
    outcome := Pay(m, sender, amount, address, a);
  }

  /** `transferMoneytoAnotherDiscordUser` (`!give`). */
  method TransferMoneyToUser(m: RPCManager, sender: DiscordID, amount: nat, receiver: DiscordID,
                             launchTime: int, now: int, a: Answers, ghost others: set<DiscordID>)
    returns (outcome: Outcome)
    requires SenderSafe(m, sender, others) && m.rpcMap[sender].timestamp <= now
    requires receiver != sender ==> |others + {receiver}| < m.limit
    requires m.startPort + m.launched < PORTS
    modifies m
    ensures SenderSafe(m, sender, if receiver == sender then others else others + {receiver})
    ensures m.launched <= old(m.launched) + 1 && m.rpcMap[sender].timestamp in {old(m.rpcMap)[sender].timestamp, now}
    ensures !outcome.Refused? <==>
            && a.resync.Synced? && 0 < amount < a.resync.unlocked && receiver != 0 && receiver != sender
            && old(m.Now()).Serves(receiver, a.receiver) && a.validLength && a.transfer
    ensures !outcome.Refused? ==> outcome.payment == Payment(sender, AddressOf(receiver), amount) &&
                                  (outcome.Sent? <==> a.note)
    ensures a.resync.Synced? && amount >= a.resync.unlocked ==>
              outcome == Refused(if amount == a.resync.unlocked then NotEnoughForFee else NotEnough)
  {
    hide StampsOf, Sheltered, State.PortsHold, State.Serves;
    var ok := Resync(m, sender, a.resync, others);
    Widen(m, sender, others, receiver);
    if !ok {
      return Refused(ResyncError);
    }
    var unlocked := m.rpcMap[sender].account.unlockedBalance;
    if amount == unlocked {
      return Refused(NotEnoughForFee);
    }
    if amount > unlocked {
      return Refused(NotEnough);
    }
    if amount == 0 {
      return Refused(ZeroAmount);
    }
    if receiver == 0 {
      return Refused(NoReceiver);
    }
    outcome := PayUser(m, sender, amount, receiver, launchTime, now, a, others);
  }

  /** `transferAllMoneytoAnotherDiscordUser` (`!giveall`): the wallet sweeps everything unlocked. */
  method TransferAllMoneyToUser(m: RPCManager, sender: DiscordID, receiver: DiscordID,
                                launchTime: int, now: int, a: Answers, ghost others: set<DiscordID>)
    returns (outcome: Outcome)
    requires SenderSafe(m, sender, others) && m.rpcMap[sender].timestamp <= now
    requires receiver != sender ==> |others + {receiver}| < m.limit
    requires m.startPort + m.launched < PORTS
    modifies m
    ensures SenderSafe(m, sender, if receiver == sender then others else others + {receiver})
    ensures !outcome.Refused? <==>
            && a.resync.Synced? && a.resync.unlocked > 0 && receiver != 0 && receiver != sender
            && old(m.Now()).Serves(receiver, a.receiver) && a.validLength && a.transfer
    ensures !outcome.Refused? ==> outcome.payment == Payment(sender, AddressOf(receiver), a.resync.unlocked) &&
                                  (outcome.Sent? <==> a.note)
  {
    hide StampsOf, Sheltered, State.PortsHold, State.Serves;
    var ok := Resync(m, sender, a.resync, others);
    Widen(m, sender, others, receiver);
    if !ok {
      return Refused(ResyncError);
    }
    var unlocked := m.rpcMap[sender].account.unlockedBalance;
    if unlocked == 0 {
      return Refused(NotEnough);
    }
    if receiver == 0 {
      return Refused(NoReceiver);
    }
    outcome := PayUser(m, sender, unlocked, receiver, launchTime, now, a, others);
  }

  /** `transferMoneyToAddress` (`!withdraw`). */
  method TransferMoneyToAddress(m: RPCManager, sender: DiscordID, amount: nat, address: Address, a: Answers,
                                ghost others: set<DiscordID>)
    returns (outcome: Outcome)
    requires SenderSafe(m, sender, others)
    modifies m`rpcMap
    ensures SenderSafe(m, sender, others)
    ensures !outcome.Refused? <==>
            && a.resync.Synced? && a.validLength && 0 < amount < a.resync.unlocked
            && address != NoAddress && address != AddressOf(sender) && a.transfer
    ensures !outcome.Refused? ==> outcome.payment == Payment(sender, address, amount) && (outcome.Sent? <==> a.note)
  {
    hide StampsOf, Sheltered, State.PortsHold, State.Serves, Consistent;
    var ok := Resync(m, sender, a.resync, others);
    if !ok {
      return Refused(ResyncError);
    }
    var account := m.rpcMap[sender].account;
    var refused := CheckAddressTransfer(amount, account.unlockedBalance, address, account.myAddress, a.validLength);
    if refused.Some? {
      return Refused(refused.value);
    }
    outcome := Pay(m, sender, amount, address, a);
  }

  /** `transferAllMoneyToAddress` (`!withdrawall`): the wallet sweeps everything unlocked. */
  method TransferAllMoneyToAddress(m: RPCManager, sender: DiscordID, address: Address, a: Answers,
                                   ghost others: set<DiscordID>)
    returns (outcome: Outcome)
    requires SenderSafe(m, sender, others)
    modifies m`rpcMap
    ensures SenderSafe(m, sender, others)
    ensures !outcome.Refused? <==>
            && a.resync.Synced? && a.validLength && a.resync.unlocked > 0
            && address != NoAddress && address != AddressOf(sender) && a.transfer
    ensures !outcome.Refused? ==>
              outcome.payment == Payment(sender, address, a.resync.unlocked) && (outcome.Sent? <==> a.note)
  {
    hide StampsOf, Sheltered, State.PortsHold, State.Serves, Consistent;
    var ok := Resync(m, sender, a.resync, others);
    if !ok {
      return Refused(ResyncError);
    }
    if !a.validLength {
      return Refused(InvalidAddress);
    }
    var account := m.rpcMap[sender].account;
    if account.unlockedBalance == 0 {
      return Refused(NotEnough);
    }
    if address == NoAddress {
      return Refused(NoReceiver);
    }
    if address == account.myAddress {
      return Refused(ToYourself);
    }
    outcome := Pay(m, sender, account.unlockedBalance, address, a);
  }

  /** One mentioned user; `reply` says whether the message about the payment goes out. */
  datatype Gift = Gift(receiver: DiscordID, launchTime: int, now: int, answers: Answers, reply: bool)

  ghost function Receivers(gifts: seq<Gift>): set<DiscordID> {
    set g | g in gifts :: g.receiver
  }

  /** Out of the sender's own wallet, to the address of someone else. */
  ghost predicate Gave(p: Payment, sender: DiscordID, amount: nat, receiver: DiscordID) {
    p == Payment(sender, AddressOf(receiver), amount) && receiver != sender && receiver != 0 && amount > 0
  }

  /** The guards of the gift pass and the wallets let it happen, from the state it meets. */
  ghost predicate Passes(was: State, sender: DiscordID, amount: nat, g: Gift) {
    && g.answers.resync.Synced? && 0 < amount < g.answers.resync.unlocked
    && g.receiver != 0 && g.receiver != sender && was.Serves(g.receiver, g.answers.receiver)
    && g.answers.validLength && g.answers.transfer
  }

  /** The gift ends the command: nothing is paid, or the note or the reply fails after it. */
  ghost predicate Ends(was: State, sender: DiscordID, amount: nat, g: Gift) {
    !Passes(was, sender, amount, g) || !g.answers.note || !g.reply
  }

  method GiveOne(m: RPCManager, sender: DiscordID, amount: nat, g: Gift, ghost others: set<DiscordID>)
    returns (outcome: Outcome)
    requires SenderSafe(m, sender, others) && m.rpcMap[sender].timestamp <= g.now
    requires g.receiver != sender ==> |others + {g.receiver}| < m.limit
    requires m.startPort + m.launched < PORTS
    modifies m
    ensures SenderSafe(m, sender, if g.receiver == sender then others else others + {g.receiver})
    ensures m.launched <= old(m.launched) + 1 && m.rpcMap[sender].timestamp in {old(m.rpcMap)[sender].timestamp, g.now}
    ensures !outcome.Refused? <==> Passes(old(m.Now()), sender, amount, g)
    ensures outcome.Sent? && g.reply <==> !Ends(old(m.Now()), sender, amount, g)
    ensures !outcome.Refused? ==> Gave(outcome.payment, sender, amount, g.receiver)
  {
    hide StampsOf, Sheltered, State.PortsHold, State.Serves, Consistent;
    outcome := TransferMoneyToUser(m, sender, amount, g.receiver, g.launchTime, g.now, g.answers, others);
  }

  /** `Give`: the same amount to each mentioned user until an exception ends the
      command. Every payment comes out of the sender's own wallet, and payments
      stop early only at the first gift that throws; `met` are the states that the
      gifts find. */
  method Give(m: RPCManager, sender: DiscordID, amount: nat, gifts: seq<Gift>)
    returns (payments: seq<Payment>, ghost met: seq<State>)
    requires SenderSafe(m, sender, {}) && |Receivers(gifts) - {sender}| < m.limit
    requires m.startPort + m.launched + |gifts| <= PORTS
    requires forall i :: 0 <= i < |gifts| ==> m.rpcMap[sender].timestamp <= gifts[i].now
    requires forall i, j :: 0 <= i < j < |gifts| ==> gifts[i].now <= gifts[j].now
    modifies m
    ensures m.Inv() && m.Now().Owns(sender)
    ensures |payments| <= |met| <= |gifts| && (met != [] ==> met[0] == old(m.Now()))
    ensures forall i :: 0 <= i < |payments| ==>
                          && Passes(met[i], sender, amount, gifts[i])
                          && Gave(payments[i], sender, amount, gifts[i].receiver)
    ensures forall i :: 0 <= i < |met| - 1 ==> !Ends(met[i], sender, amount, gifts[i])
    ensures |met| < |gifts| ==> met != [] && Ends(met[|met| - 1], sender, amount, gifts[|met| - 1])
    ensures |payments| < |met| ==>
              |payments| == |met| - 1 && !Passes(met[|payments|], sender, amount, gifts[|payments|])
  {
    hide Consistent, State.PortsHold, Sheltered, State.Serves, StampsOf, Receivers, Passes, Ends, Gave;
    met := [];
    ghost var others: set<DiscordID> := {};
    ghost var entry := m.rpcMap[sender].timestamp;
    payments := [];
    for i := 0 to |gifts|
      invariant SenderSafe(m, sender, others) && others <= Receivers(gifts[..i]) - {sender}
      invariant m.startPort + m.launched + (|gifts| - i) <= PORTS
      invariant m.rpcMap[sender].timestamp == entry || (0 < i && m.rpcMap[sender].timestamp <= gifts[i - 1].now)
      invariant |payments| == |met| == i && (if i == 0 then m.Now() == old(m.Now()) else met[0] == old(m.Now()))
      invariant forall j :: 0 <= j < i ==> Gave(payments[j], sender, amount, gifts[j].receiver)
      invariant forall j :: 0 <= j < i ==> Passes(met[j], sender, amount, gifts[j])
      invariant forall j :: 0 <= j < i ==> !Ends(met[j], sender, amount, gifts[j])
    {
      var g := gifts[i];
      met := met + [m.Now()];
      OthersWithin(gifts, i, sender, others);
      var outcome := GiveOne(m, sender, amount, g, others);
      if g.receiver != sender {
        others := others + {g.receiver};
      }
      if !outcome.Refused? {
        payments := payments + [outcome.payment];
      }
      if !outcome.Sent? || !g.reply {
        return;
      }
    }
  }

  lemma OthersWithin(gifts: seq<Gift>, i: nat, sender: DiscordID, others: set<DiscordID>)
    requires i < |gifts| && others <= Receivers(gifts[..i]) - {sender}
    ensures others <= Receivers(gifts[..i + 1]) - {sender}
    ensures gifts[i].receiver != sender ==>
              others + {gifts[i].receiver} <= Receivers(gifts[..i + 1]) - {sender} &&
              |others + {gifts[i].receiver}| <= |Receivers(gifts) - {sender}|
  {
    assert gifts[..i + 1] == gifts[..i] + [gifts[i]];
    assert gifts[i] in gifts[..i + 1];
    if gifts[i].receiver != sender {
      SubsetSize(others + {gifts[i].receiver}, Receivers(gifts) - {sender});
    }
  }
}
