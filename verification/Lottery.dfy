/** The weekly lottery (src/Lottery.cpp): a loop that looks at the clock once a
    second and draws, sweeps or resets, driven by four flags and by the height up
    to which deposits have been played (`lastWinningTopBlock`).

    Amounts are exact: quotients and shares are reals, and a conversion to an
    integer rounds down. The answers of the wallets, the shuffle and the clock are
    parameters. */
module Lottery {
  import opened Types
  import opened Transfers

  datatype Config = Config(coinOffset: real, ticketCost: real, donationPercent: real, noWinnerChance: real,
                           day: nat, close: nat, pick: nat, faucet: nat)
  {
    predicate Valid() {
      coinOffset > 0.0 && ticketCost > 0.0 && 0.0 <= donationPercent <= 1.0 && 0.0 <= noWinnerChance
    }
  }

  // ------------------------------------------------ tickets

  /** An amount in tickets, fractions included. */
  function Worth(cfg: Config, amount: nat): real
    requires cfg.Valid()
  {
    (amount as real / cfg.coinOffset) / cfg.ticketCost
  }

  lemma WorthNonNegative(cfg: Config, amount: nat)
    requires cfg.Valid()
    ensures Worth(cfg, amount) >= 0.0
  {
  }

  lemma WorthAdds(cfg: Config, a: nat, b: nat)
    requires cfg.Valid()
    ensures Worth(cfg, a + b) == Worth(cfg, a) + Worth(cfg, b)
  {
    assert (a + b) as real / cfg.coinOffset == a as real / cfg.coinOffset + b as real / cfg.coinOffset;
  }

  /** Whole tickets bought by one deposit. */
  function Tickets(cfg: Config, amount: nat): nat
    requires cfg.Valid()
  {
    WorthNonNegative(cfg, amount);
    Worth(cfg, amount).Floor
  }

  predicate Active(tx: TransferItem, watermark: nat) {
    tx.blockHeight > watermark
  }

  /** The deposits of a history that are still in play. */
  ghost function ActiveDeposits(history: seq<TransferItem>, watermark: nat): (r: seq<TransferItem>)
    ensures forall i :: 0 <= i < |r| ==> Active(r[i], watermark)
  {
    if history == [] then [] else
      var last, before := history[|history| - 1], ActiveDeposits(history[..|history| - 1], watermark);
      if Active(last, watermark) then before + [last] else before
  }

  /** What the draw plays for, and what `Jackpot` shows. */
  ghost function Balance(history: seq<TransferItem>, watermark: nat): nat {
    Amount(ActiveDeposits(history, watermark))
  }

  /** In play is exactly what lies above the watermark, as often as it was made. */
  lemma {:induction false} AboveIsInPlay(history: seq<TransferItem>, watermark: nat, x: TransferItem)
    ensures multiset(ActiveDeposits(history, watermark))[x] ==
            if x.blockHeight > watermark then multiset(history)[x] else 0
  {
    if history != [] {
      var n := |history| - 1;
      AboveIsInPlay(history[..n], watermark, x);
      var before, last := ActiveDeposits(history[..n], watermark), history[n];
      assert history == history[..n] + [last];
      assert multiset(before + [last]) == multiset(before) + multiset{last};
    }
  }

  /** What deposits at or below the watermark add up to. */
  ghost function SettledAmount(history: seq<TransferItem>, watermark: nat): nat {
    if history == [] then 0 else
      var last := history[|history| - 1];
      SettledAmount(history[..|history| - 1], watermark) + if last.blockHeight <= watermark then last.amount else 0
  }

  /** Nothing lies between what is played for and what is settled. */
  lemma {:induction false} BalanceAndSettledAreAll(history: seq<TransferItem>, watermark: nat)
    ensures Balance(history, watermark) + SettledAmount(history, watermark) == Amount(history)
  {
    if history != [] {
      var n := |history| - 1;
      var before, last := ActiveDeposits(history[..n], watermark), history[n];
      BalanceAndSettledAreAll(history[..n], watermark);
      assert history == history[..n] + [last];
      hide Amount;
      AmountSnoc(history[..n], last);
      AmountSnoc(before, last);
    }
  }

  function Repeat(id: DiscordID, n: nat): (r: seq<DiscordID>)
    ensures |r| == n && forall i :: 0 <= i < n ==> r[i] == id
  {
    if n == 0 then [] else Repeat(id, n - 1) + [id]
  }

  /** One list entry per whole ticket of each deposit. */
  ghost function EntriesOf(cfg: Config, deposits: seq<TransferItem>): seq<DiscordID>
    requires cfg.Valid()
  {
    if deposits == [] then [] else
      var last := deposits[|deposits| - 1];
      EntriesOf(cfg, deposits[..|deposits| - 1]) + Repeat(last.paymentId, Tickets(cfg, last.amount))
  }

  ghost predicate HasTicket(cfg: Config, tx: TransferItem, id: DiscordID)
    requires cfg.Valid()
  {
    tx.paymentId == id && Tickets(cfg, tx.amount) >= 1
  }

  /** Every entry was paid for by a deposit worth at least one ticket. */
  lemma {:induction false} EntryHasDeposit(cfg: Config, deposits: seq<TransferItem>, id: DiscordID)
    requires cfg.Valid() && id in EntriesOf(cfg, deposits)
    ensures exists i :: 0 <= i < |deposits| && HasTicket(cfg, deposits[i], id)
  {
    var last := |deposits| - 1;
    if id in EntriesOf(cfg, deposits[..last]) {
      EntryHasDeposit(cfg, deposits[..last], id);
      var i :| 0 <= i < last && HasTicket(cfg, deposits[..last][i], id);
      assert HasTicket(cfg, deposits[i], id);
    } else {
      assert id in Repeat(deposits[last].paymentId, Tickets(cfg, deposits[last].amount));
      assert HasTicket(cfg, deposits[last], id);
    }
  }

  lemma AmountSnoc(s: seq<TransferItem>, x: TransferItem)
    ensures Amount(s + [x]) == Amount(s) + x.amount
  {
    AmountAppend(s, [x]);
    assert [x][1..] == [];
  }

  lemma ActiveSnoc(history: seq<TransferItem>, i: nat, watermark: nat)
    requires i < |history|
    ensures ActiveDeposits(history[..i + 1], watermark) ==
            var before := ActiveDeposits(history[..i], watermark);
            if Active(history[i], watermark) then before + [history[i]] else before
  {
    assert history[..i + 1][..i] == history[..i];
  }

  lemma EntriesSnoc(cfg: Config, deposits: seq<TransferItem>, x: TransferItem)
    requires cfg.Valid()
    ensures EntriesOf(cfg, deposits + [x]) ==
            EntriesOf(cfg, deposits) + Repeat(x.paymentId, Tickets(cfg, x.amount))
  {
    assert (deposits + [x])[..|deposits|] == deposits;
  }

  // ------------------------------------------------ what users are shown

  method Jackpot(history: seq<TransferItem>, watermark: nat) returns (bal: nat)
    ensures bal == Balance(history, watermark)
  {
    bal := 0;
    for i := 0 to |history|
      invariant bal == Balance(history[..i], watermark)
    {
      ActiveSnoc(history, i, watermark);
      if Active(history[i], watermark) {
        AmountSnoc(ActiveDeposits(history[..i], watermark), history[i]);
        bal := bal + history[i].amount;
      }
    }
    assert history[..|history|] == history;
  }

  /** The active deposits of one user. */
  ghost function DepositsOf(history: seq<TransferItem>, watermark: nat, user: DiscordID): (r: seq<TransferItem>)
    ensures |r| <= |history|
  {
    if history == [] then [] else
      var last, before := history[|history| - 1], DepositsOf(history[..|history| - 1], watermark, user);
      if Active(last, watermark) && last.paymentId == user then before + [last] else before
  }

  /** They are exactly the user's own above the watermark, as often as made. */
  lemma {:induction false} OwnAboveIsInPlay(history: seq<TransferItem>, watermark: nat, user: DiscordID,
                                            x: TransferItem)
    ensures multiset(DepositsOf(history, watermark, user))[x] ==
            if x.blockHeight > watermark && x.paymentId == user then multiset(history)[x] else 0
  {
    if history != [] {
      var n := |history| - 1;
      OwnAboveIsInPlay(history[..n], watermark, user, x);
      var before, last := DepositsOf(history[..n], watermark, user), history[n];
      assert history == history[..n] + [last];
      assert multiset(before + [last]) == multiset(before) + multiset{last};
    }
  }

  /** `MyTickets`: whole tickets in the sum of the user's active deposits. */
  method MyTickets(cfg: Config, history: seq<TransferItem>, watermark: nat, user: DiscordID) returns (tickets: nat)
    requires cfg.Valid()
    ensures tickets == Tickets(cfg, Amount(DepositsOf(history, watermark, user)))
  {
    var bal: nat := 0;
    for i := 0 to |history|
      invariant bal == Amount(DepositsOf(history[..i], watermark, user))
    {
      assert history[..i + 1][..i] == history[..i];
      if Active(history[i], watermark) && history[i].paymentId == user {
        AmountSnoc(DepositsOf(history[..i], watermark, user), history[i]);
        bal := bal + history[i].amount;
      }
    }
    assert history[..|history|] == history;
    tickets := Tickets(cfg, bal);
  }

  /** Entries of one user in the list that is drawn from. */
  ghost function Count(entries: seq<DiscordID>, id: DiscordID): nat {
    multiset(entries)[id]
  }

  lemma {:induction false} CountRepeat(id: DiscordID, n: nat, user: DiscordID)
    ensures Count(Repeat(id, n), user) == if id == user then n else 0
  {
    if n > 0 {
      CountRepeat(id, n - 1, user);
    }
  }

  lemma TicketsRoundDown(cfg: Config, amount: nat)
    requires cfg.Valid()
    ensures Tickets(cfg, amount) as real <= Worth(cfg, amount) < Tickets(cfg, amount) as real + 1.0
  {
  }

  /** An amount buys n tickets exactly if it pays n of them and not one more. */
  lemma TicketsArePaid(cfg: Config, amount: nat, n: nat)
    requires cfg.Valid()
    ensures Tickets(cfg, amount) == n <==>
            n as real * cfg.ticketCost * cfg.coinOffset <= amount as real <
            (n + 1) as real * cfg.ticketCost * cfg.coinOffset
  {
    QuotientAtLeast(amount as real, cfg.coinOffset, cfg.ticketCost, n as real);
    QuotientAtLeast(amount as real, cfg.coinOffset, cfg.ticketCost, (n + 1) as real);
  }

  lemma QuotientAtLeast(x: real, a: real, b: real, n: real)
    requires a > 0.0 && b > 0.0
    ensures (x / a) / b >= n <==> x >= n * b * a
  {
    var q := x / a;
    var r := q / b;
    assert x == q * a && q == r * b;
    if r >= n {
      TimesAtLeast(n, r, b);
      TimesAtLeast(n * b, q, a);
    } else {
      TimesMore(r, n, b);
      TimesMore(q, n * b, a);
    }
  }

  lemma TimesAtLeast(x: real, y: real, a: real)
    requires x <= y && a > 0.0
    ensures x * a <= y * a
  {
  }

  lemma TimesMore(x: real, y: real, a: real)
    requires x < y && a > 0.0
    ensures x * a < y * a
  {
  }

  /** One more deposit adds its whole tickets to the entries of its owner. */
  lemma CountSnoc(cfg: Config, deposits: seq<TransferItem>, x: TransferItem, user: DiscordID)
    requires cfg.Valid()
    ensures Count(EntriesOf(cfg, deposits + [x]), user) ==
            Count(EntriesOf(cfg, deposits), user) + if x.paymentId == user then Tickets(cfg, x.amount) else 0
  {
    EntriesSnoc(cfg, deposits, x);
    CountRepeat(x.paymentId, Tickets(cfg, x.amount), user);
  }

  ghost function SumOfTickets(cfg: Config, deposits: seq<TransferItem>): nat
    requires cfg.Valid()
  {
    if deposits == [] then 0 else
      SumOfTickets(cfg, deposits[..|deposits| - 1]) + Tickets(cfg, deposits[|deposits| - 1].amount)
  }

  /** The entries of a user are the whole tickets of each of the user's deposits. */
  lemma {:induction false} EntriesOfUser(cfg: Config, history: seq<TransferItem>, watermark: nat, user: DiscordID)
    requires cfg.Valid()
    ensures Count(EntriesOf(cfg, ActiveDeposits(history, watermark)), user) ==
            SumOfTickets(cfg, DepositsOf(history, watermark, user))
  {
    if history != [] {
      var n := |history| - 1;
      var before := DepositsOf(history[..n], watermark, user);
      EntriesOfUser(cfg, history[..n], watermark, user);
      hide Tickets, Count, EntriesOf;
      if Active(history[n], watermark) {
        CountSnoc(cfg, ActiveDeposits(history[..n], watermark), history[n], user);
        assert (before + [history[n]])[..|before|] == before;
      }
    }
  }

  /** Rounding each deposit down loses less than one ticket a deposit. */
  lemma {:induction false} TicketsWithinWorth(cfg: Config, deposits: seq<TransferItem>)
    requires cfg.Valid()
    ensures SumOfTickets(cfg, deposits) as real <= Worth(cfg, Amount(deposits))
    ensures deposits == [] ==> Worth(cfg, Amount(deposits)) == 0.0
    ensures deposits != [] ==> Worth(cfg, Amount(deposits)) < SumOfTickets(cfg, deposits) as real + |deposits| as real
  {
    if deposits != [] {
      hide Worth, Tickets, Amount;
      var before, last := deposits[..|deposits| - 1], deposits[|deposits| - 1];
      assert deposits == before + [last];
      TicketsWithinWorth(cfg, before);
      AmountSnoc(before, last);
      WorthAdds(cfg, Amount(before), last.amount);
      TicketsRoundDown(cfg, last.amount);
    }
  }

  /** The draw gives a user at most the tickets that `MyTickets` shows, and falls
      short by less than the number of the user's active deposits. */
  lemma TicketsShownAndDrawn(cfg: Config, history: seq<TransferItem>, watermark: nat, user: DiscordID)
    requires cfg.Valid()
    ensures var mine := DepositsOf(history, watermark, user);
            var drawn := Count(EntriesOf(cfg, ActiveDeposits(history, watermark)), user);
            var shown := Tickets(cfg, Amount(mine));
            drawn <= shown && if mine == [] then shown == drawn == 0 else shown - drawn < |mine|
  {
    EntriesOfUser(cfg, history, watermark, user);
    TicketsWithinWorth(cfg, DepositsOf(history, watermark, user));
    TicketsRoundDown(cfg, Amount(DepositsOf(history, watermark, user)));
  }

  // ------------------------------------------------ whole tickets

  /** The amount that `BuyTicket` sends for a number of tickets. */
  function PriceOf(cfg: Config, tickets: nat): real {
    (tickets as real * cfg.ticketCost) * cfg.coinOffset
  }

  /** A deposit of exactly the price of some number of tickets. */
  ghost predicate Bought(cfg: Config, tx: TransferItem) {
    exists n: nat :: tx.amount as real == PriceOf(cfg, n)
  }

  lemma PriceIsWorth(cfg: Config, amount: nat, n: nat)
    requires cfg.Valid() && amount as real == PriceOf(cfg, n)
    ensures Worth(cfg, amount) == n as real && Tickets(cfg, amount) == n
  {
    assert amount as real / cfg.coinOffset == n as real * cfg.ticketCost;
  }

  lemma BoughtIsWhole(cfg: Config, tx: TransferItem)
    requires cfg.Valid() && Bought(cfg, tx)
    ensures Worth(cfg, tx.amount) == Tickets(cfg, tx.amount) as real
  {
    var n: nat :| tx.amount as real == PriceOf(cfg, n);
    PriceIsWorth(cfg, tx.amount, n);
  }

  lemma {:induction false} BoughtAreExact(cfg: Config, deposits: seq<TransferItem>)
    requires cfg.Valid()
    requires forall i :: 0 <= i < |deposits| ==> Bought(cfg, deposits[i])
    ensures Worth(cfg, Amount(deposits)) == SumOfTickets(cfg, deposits) as real
  {
    if deposits != [] {
      hide Worth, Tickets, Amount, Bought;
      var before, last := deposits[..|deposits| - 1], deposits[|deposits| - 1];
      assert deposits == before + [last];
      BoughtAreExact(cfg, before);
      BoughtIsWhole(cfg, last);
      AmountSnoc(before, last);
      WorthAdds(cfg, Amount(before), last.amount);
    }
  }

  /** A user who only ever bought whole tickets draws with every ticket shown. */
  lemma BoughtTicketsAllDrawn(cfg: Config, history: seq<TransferItem>, watermark: nat, user: DiscordID)
    requires cfg.Valid()
    requires var mine := DepositsOf(history, watermark, user);
             forall i :: 0 <= i < |mine| ==> Bought(cfg, mine[i])
    ensures Tickets(cfg, Amount(DepositsOf(history, watermark, user))) ==
            Count(EntriesOf(cfg, ActiveDeposits(history, watermark)), user)
  {
    EntriesOfUser(cfg, history, watermark, user);
    BoughtAreExact(cfg, DepositsOf(history, watermark, user));
  }
}
