/** The lottery thread (`Lottery::run` in src/Lottery.cpp) over any run of ticks:
    whatever the clock shows, whatever fails, whoever suspends it. */
module LotteryRun {
  import opened Types
  import opened Wrappers
  import opened Transfers
  import opened Lottery

  // ------------------------------------------------ one draw

  /** `for (auto i = 0; i < x; i++)` runs this often. */
  function Rounds(x: real): (n: nat)
    requires x >= 0.0
    ensures x <= n as real < x + 1.0
  {
    if x.Floor as real == x then x.Floor else x.Floor + 1
  }

  /** How many blank tickets are added to n entries. */
  ghost function Blanks(cfg: Config, n: nat): nat
    requires cfg.Valid()
  {
    Rounds(n as real * cfg.noWinnerChance)
  }

  /** The entries with the blank tickets added. */
  ghost function Padded(cfg: Config, entries: seq<DiscordID>): seq<DiscordID>
    requires cfg.Valid()
  {
    entries + Repeat(0, Blanks(cfg, |entries|))
  }

  type Shuffle = seq<DiscordID> -> seq<DiscordID>

  ghost predicate IsShuffle(shuffle: Shuffle) {
    forall s: seq<DiscordID> :: multiset(shuffle(s)) == multiset(s)
  }

  lemma ShuffleKeepsSize(shuffle: Shuffle, s: seq<DiscordID>)
    requires IsShuffle(shuffle)
    ensures |shuffle(s)| == |s|
    ensures forall id :: id in shuffle(s) ==> id in s
  {
    assert |multiset(shuffle(s))| == |multiset(s)|;
    forall id | id in shuffle(s) ensures id in s {
      assert id in multiset(shuffle(s));
    }
  }

  ghost function EntriesIn(cfg: Config, history: seq<TransferItem>, watermark: nat): seq<DiscordID>
    requires cfg.Valid()
  {
    EntriesOf(cfg, ActiveDeposits(history, watermark))
  }

  /** The winning draws: zero is no winner. */
  datatype Win = Win(winner: DiscordID, watermark: nat, top: nat, history: seq<TransferItem>,
                     balance: nat, reward: nat, paid: bool)
  {
    ghost function Deposits(): seq<TransferItem> {
      ActiveDeposits(history, watermark)
    }
  }

  /** One of the deposits, worth at least a whole ticket, came from the user. */
  ghost predicate OwnsTicket(cfg: Config, deposits: seq<TransferItem>, id: DiscordID)
    requires cfg.Valid()
  {
    exists i :: 0 <= i < |deposits| && HasTicket(cfg, deposits[i], id)
  }

  /** What every winning draw satisfies: it plays the deposits above the old
      watermark, raises the watermark to the top of the history it saw, and pays the
      share of their balance to the owner of a whole ticket. */
  ghost predicate Fair(cfg: Config, win: Win, watermark: nat)
    requires cfg.Valid()
  {
    && win.watermark == watermark < win.top
    && Sorted(win.history) && win.history != [] && win.top == win.history[0].blockHeight
    && win.balance == Balance(win.history, watermark)
    && win.reward == RewardOf(cfg, win.balance)
    && win.winner != 0
    && OwnsTicket(cfg, win.Deposits(), win.winner)
  }

  /** The list that is shuffled and what comes out have the entries plus the blanks. */
  lemma DrawnSize(cfg: Config, entries: seq<DiscordID>, shuffle: Shuffle)
    requires cfg.Valid() && IsShuffle(shuffle)
    ensures |shuffle(Padded(cfg, entries))| == |entries| + Rounds(|entries| as real * cfg.noWinnerChance)
  {
    PaddedSize(cfg, entries);
    hide Padded, Rounds;
    ShuffleKeepsSize(shuffle, Padded(cfg, entries));
  }

  /** Whoever is drawn, under any shuffle, is a blank or owns a whole ticket. */
  lemma DrawnOwnsATicket(cfg: Config, deposits: seq<TransferItem>, shuffle: Shuffle)
    requires cfg.Valid() && IsShuffle(shuffle) && EntriesOf(cfg, deposits) != []
    ensures var drawn := shuffle(Padded(cfg, EntriesOf(cfg, deposits)));
            && drawn != []
            && (drawn[0] != 0 ==> OwnsTicket(cfg, deposits, drawn[0]))
  {
    var entries := EntriesOf(cfg, deposits);
    hide EntriesOf, HasTicket, IsShuffle, Rounds;
    DrawnSize(cfg, entries, shuffle);
    FirstNotBlank(cfg, entries, shuffle);
    if shuffle(Padded(cfg, entries))[0] != 0 {
      EntryHasDeposit(cfg, deposits, shuffle(Padded(cfg, entries))[0]);
    }
  }

  /** The shuffled list holds a user as often as its deposits above the watermark buy tickets. */
  lemma ShuffledHoldsEveryTicket(cfg: Config, history: seq<TransferItem>, watermark: nat, shuffle: Shuffle,
                                 user: DiscordID)
    requires cfg.Valid() && IsShuffle(shuffle) && user != 0
    ensures Count(shuffle(Padded(cfg, EntriesIn(cfg, history, watermark))), user) ==
            SumOfTickets(cfg, DepositsOf(history, watermark, user))
  {
    var entries := EntriesIn(cfg, history, watermark);
    hide EntriesOf, ActiveDeposits, Padded, SumOfTickets, DepositsOf;
    EntriesOfUser(cfg, history, watermark, user);
    BlanksAreNobodys(cfg, entries, user);
    assert multiset(shuffle(Padded(cfg, entries))) == multiset(Padded(cfg, entries));
  }

  lemma BlanksAreNobodys(cfg: Config, entries: seq<DiscordID>, user: DiscordID)
    requires cfg.Valid() && user != 0
    ensures Count(Padded(cfg, entries), user) == Count(entries, user)
  {
    hide Blanks, Repeat, Count;
    BlanksAdd(entries, Blanks(cfg, |entries|), user);
  }

  lemma BlanksAdd(entries: seq<DiscordID>, n: nat, user: DiscordID)
    requires user != 0
    ensures Count(entries + Repeat(0, n), user) == Count(entries, user)
  {
    CountRepeat(0, n, user);
    hide Repeat;
    assert multiset(entries + Repeat(0, n)) == multiset(entries) + multiset(Repeat(0, n));
  }

  lemma FirstNotBlank(cfg: Config, entries: seq<DiscordID>, shuffle: Shuffle)
    requires cfg.Valid() && IsShuffle(shuffle) && shuffle(Padded(cfg, entries)) != []
    ensures var first := shuffle(Padded(cfg, entries))[0];
            first != 0 ==> first in entries
  {
    var first := shuffle(Padded(cfg, entries))[0];
    ShuffleKeepsSize(shuffle, Padded(cfg, entries));
    if first != 0 {
      NotBlank(cfg, entries, first);
    }
  }

  lemma PaddedSize(cfg: Config, entries: seq<DiscordID>)
    requires cfg.Valid()
    ensures |Padded(cfg, entries)| == |entries| + Rounds(|entries| as real * cfg.noWinnerChance)
  {
  }

  lemma NotBlank(cfg: Config, entries: seq<DiscordID>, id: DiscordID)
    requires cfg.Valid() && id in Padded(cfg, entries) && id != 0
    ensures id in entries
  {
  }

  /** If anything is in play, the newest deposit is. */
  lemma ActiveMeansTopActive(history: seq<TransferItem>, watermark: nat)
    requires Sorted(history) && ActiveDeposits(history, watermark) != []
    ensures history != [] && history[0].blockHeight > watermark
  {
    if history[0].blockHeight <= watermark {
      NoneActive(history, watermark);
    }
  }

  lemma {:induction false} NoneActive(history: seq<TransferItem>, watermark: nat)
    requires forall i :: 0 <= i < |history| ==> history[i].blockHeight <= watermark
    ensures ActiveDeposits(history, watermark) == []
  {
    if history != [] {
      NoneActive(history[..|history| - 1], watermark);
    }
  }

  /** A winning draw plays every deposit of its history above the old watermark. */
  lemma WinPlaysAllAbove(cfg: Config, win: Win, watermark: nat, x: TransferItem)
    requires cfg.Valid() && Fair(cfg, win, watermark)
    ensures multiset(win.Deposits())[x] == if x.blockHeight > watermark then multiset(win.history)[x] else 0
    ensures win.balance + SettledAmount(win.history, watermark) == Amount(win.history)
  {
    AboveIsInPlay(win.history, watermark, x);
    BalanceAndSettledAreAll(win.history, watermark);
    hide ActiveDeposits, SettledAmount, Amount, OwnsTicket;
  }

  /** Right after a winning draw the jackpot on the same history is zero. */
  lemma JackpotZeroAfterWin(cfg: Config, win: Win, watermark: nat)
    requires cfg.Valid() && Fair(cfg, win, watermark)
    ensures Balance(win.history, win.top) == 0
  {
    NoneActive(win.history, win.top);
  }

  /** `bal - (bal * donation_percent)`, rounded down. */
  function RewardOf(cfg: Config, bal: nat): (reward: nat)
    requires cfg.Valid()
    ensures reward as real <= bal as real * (1.0 - cfg.donationPercent) < reward as real + 1.0
  {
    var exact := bal as real - bal as real * cfg.donationPercent;
    assert exact == bal as real * (1.0 - cfg.donationPercent);
    assert exact >= 0.0;
    exact.Floor
  }

  datatype TransferReply = Pays | PaysThenThrows | Throws

  datatype DrawAnswers = DrawAnswers(resync: bool, list: Option<seq<RpcEntry>>, shuffle: Shuffle,
                                     account: bool, message: bool, payout: TransferReply, save: bool)

  datatype SweepAnswers = SweepAnswers(resync: bool, transfer: TransferReply)

  datatype Tick = Tick(toggled: bool, day: nat, hour: nat, draw: DrawAnswers, sweep: SweepAnswers)

  // ------------------------------------------------ the flags

  datatype Flags = Flags(rewardGivenout: bool, sweepComplete: bool, noWinner: bool, suspended: bool)

  datatype Phase = Suspended | Drawing | Sweeping | Resetting | Waiting

  function PhaseOf(cfg: Config, f: Flags, day: nat, hour: nat): Phase {
    if f.suspended then Suspended
    else if !f.noWinner && !f.rewardGivenout && day == cfg.day && hour == cfg.pick then Drawing
    else if !f.sweepComplete && day == cfg.day && hour == cfg.faucet then Sweeping
    else if (f.rewardGivenout && f.sweepComplete) || (f.rewardGivenout && f.noWinner && hour < cfg.close) then Resetting
    else Waiting
  }

  /** The sweep reaches the transfer, which it skips after a draw without a winner. */
  predicate MovesMoney(f: Flags, a: SweepAnswers) {
    a.resync && !f.noWinner && a.transfer != Throws
  }

  function AfterSweep(f: Flags, a: SweepAnswers): Flags {
    if a.resync && (f.noWinner || a.transfer == Pays) then f.(noWinner := false, sweepComplete := true) else f
  }

  function AfterReset(f: Flags): Flags {
    f.(rewardGivenout := false, sweepComplete := false)
  }

  /** The winner is told and paid without an exception. */
  predicate Answered(a: DrawAnswers) {
    a.account && a.message && a.payout == Pays
  }

  /** The money leaves, whether or not an exception follows. */
  predicate PaidOut(a: DrawAnswers) {
    a.account && a.message && a.payout != Throws
  }

  /** The flags once an entry is drawn: a blank is noted, any exception suspends. */
  function AfterDrawing(f: Flags, winner: DiscordID, a: DrawAnswers): Flags {
    var drawn := if winner == 0 then f.(noWinner := true) else f;
    if (winner != 0 && !Answered(a)) || !a.save then drawn.(suspended := true)
    else drawn.(rewardGivenout := true)
  }

  function Flipped(f: Flags, t: Tick): Flags {
    if t.toggled then f.(suspended := !f.suspended) else f
  }

  /** The first entry after the shuffle, if there is one. */
  ghost function Drawn(cfg: Config, a: DrawAnswers, watermark: nat): Option<DiscordID>
    requires cfg.Valid() && IsShuffle(a.shuffle)
  {
    if !a.resync || a.list.None? then None else
      var entries := EntriesIn(cfg, Ordered(Listed(a.list.value)), watermark);
      if entries == [] then None else
        DrawnOwnsATicket(cfg, ActiveDeposits(Ordered(Listed(a.list.value)), watermark), a.shuffle);
        Some(a.shuffle(Padded(cfg, entries))[0])
  }

  lemma DrawnFrom(cfg: Config, a: DrawAnswers, watermark: nat)
    requires cfg.Valid() && IsShuffle(a.shuffle)
    ensures !a.resync || a.list.None? ==> Drawn(cfg, a, watermark).None?
    ensures a.resync && a.list.Some? ==>
              var entries := EntriesIn(cfg, Ordered(Listed(a.list.value)), watermark);
              var shuffled := a.shuffle(Padded(cfg, entries));
              if entries == [] then Drawn(cfg, a, watermark).None?
              else shuffled != [] ==> Drawn(cfg, a, watermark) == Some(shuffled[0])
  {
    hide Padded, EntriesOf, ActiveDeposits, Ordered, Listed, IsShuffle;
  }

  ghost predicate BlankDrawn(cfg: Config, a: DrawAnswers, watermark: nat)
    requires cfg.Valid() && IsShuffle(a.shuffle)
  {
    Drawn(cfg, a, watermark) == Some(0)
  }

  /** The draw saw the history that the wallet listed, and paid unless something threw before. */
  ghost predicate FromAnswers(win: Win, a: DrawAnswers) {
    a.list.Some? && win.history == Ordered(Listed(a.list.value)) && (win.paid <==> PaidOut(a))
  }

  /** The flags after a draw, by what came out and what failed. */
  ghost predicate DrawEnds(cfg: Config, was: Flags, now: Flags, a: DrawAnswers, watermark: nat, win: Option<Win>)
    requires cfg.Valid() && IsShuffle(a.shuffle)
  {
    && (win.Some? <==> Drawn(cfg, a, watermark).Some? && Drawn(cfg, a, watermark).value != 0)
    && (win.Some? ==> win.value.winner == Drawn(cfg, a, watermark).value && FromAnswers(win.value, a))
    && now == if !a.resync || a.list.None? then was.(suspended := true)
              else match Drawn(cfg, a, watermark) {
                case None => was
                case Some(winner) => AfterDrawing(was, winner, a)
              }
  }

  // ------------------------------------------------ each deposit is played at most once

  /** Winning draws one after another, each from where the last one ended. */
  ghost predicate Chained(cfg: Config, wins: seq<Win>, start: nat, end: nat)
    requires cfg.Valid()
  {
    if wins == [] then start == end else
      var last := wins[|wins| - 1];
      Fair(cfg, last, last.watermark) && last.top == end && Chained(cfg, wins[..|wins| - 1], start, last.watermark)
  }

  lemma ChainSnoc(cfg: Config, wins: seq<Win>, start: nat, end: nat, win: Win)
    requires cfg.Valid() && Chained(cfg, wins, start, end) && Fair(cfg, win, end) && win.watermark == end
    ensures Chained(cfg, wins + [win], start, win.top)
  {
    assert (wins + [win])[..|wins|] == wins;
  }

  lemma {:induction false} ActiveInHistory(history: seq<TransferItem>, watermark: nat, x: TransferItem)
    requires x in ActiveDeposits(history, watermark)
    ensures x in history && Active(x, watermark)
  {
    var n := |history| - 1;
    if x in ActiveDeposits(history[..n], watermark) {
      ActiveInHistory(history[..n], watermark, x);
    }
  }

  /** A winning draw plays heights above its watermark and up to its top. */
  lemma DepositHeights(cfg: Config, win: Win, x: TransferItem)
    requires cfg.Valid() && Fair(cfg, win, win.watermark) && x in win.Deposits()
    ensures win.watermark < x.blockHeight <= win.top
  {
    ActiveInHistory(win.history, win.watermark, x);
  }

  lemma {:induction false} ChainBounds(cfg: Config, wins: seq<Win>, start: nat, end: nat, i: nat)
    requires cfg.Valid() && Chained(cfg, wins, start, end) && i < |wins|
    ensures Fair(cfg, wins[i], wins[i].watermark)
    ensures start <= wins[i].watermark < wins[i].top <= end
  {
    var last := |wins| - 1;
    if i < last {
      ChainBounds(cfg, wins[..last], start, wins[last].watermark, i);
    } else if last > 0 {
      ChainBounds(cfg, wins[..last], start, wins[last].watermark, last - 1);
    }
  }

  /** Over any run, the watermark of a later winning draw is at or above the top of
      an earlier one. */
  lemma {:induction false} ChainOrdered(cfg: Config, wins: seq<Win>, start: nat, end: nat, i: nat, j: nat)
    requires cfg.Valid() && Chained(cfg, wins, start, end) && i < j < |wins|
    ensures wins[i].top <= wins[j].watermark
  {
    var last := |wins| - 1;
    if j < last {
      ChainOrdered(cfg, wins[..last], start, wins[last].watermark, i, j);
    } else {
      ChainBounds(cfg, wins[..last], start, wins[last].watermark, i);
    }
  }

  /** No deposit is played in two winning draws. */
  lemma DepositsDisjoint(cfg: Config, wins: seq<Win>, start: nat, end: nat, i: nat, j: nat, x: TransferItem)
    requires cfg.Valid() && Chained(cfg, wins, start, end) && i < j < |wins|
    requires x in wins[i].Deposits()
    ensures x !in wins[j].Deposits()
  {
    ChainBounds(cfg, wins, start, end, i);
    ChainBounds(cfg, wins, start, end, j);
    ChainOrdered(cfg, wins, start, end, i, j);
    DepositHeights(cfg, wins[i], x);
    if x in wins[j].Deposits() {
      DepositHeights(cfg, wins[j], x);
    }
  }

  ghost function AllDeposits(wins: seq<Win>): seq<TransferItem> {
    if wins == [] then [] else AllDeposits(wins[..|wins| - 1]) + wins[|wins| - 1].Deposits()
  }

  /** The money paid out by the winning draws. */
  ghost function PaidBy(wins: seq<Win>): nat {
    if wins == [] then 0 else
      PaidBy(wins[..|wins| - 1]) + if wins[|wins| - 1].paid then wins[|wins| - 1].reward else 0
  }

  lemma {:induction false} AllDepositHeights(cfg: Config, wins: seq<Win>, start: nat, end: nat, x: TransferItem)
    requires cfg.Valid() && Chained(cfg, wins, start, end) && x in AllDeposits(wins)
    ensures start < x.blockHeight <= end
  {
    var last := |wins| - 1;
    ChainBounds(cfg, wins, start, end, last);
    if x in wins[last].Deposits() {
      DepositHeights(cfg, wins[last], x);
    } else {
      AllDepositHeights(cfg, wins[..last], start, wins[last].watermark, x);
    }
  }

  /** Together the winning draws play each deposit of the chain no more often than it was made. */
  lemma {:induction false} PlayedAtMostOnce(cfg: Config, wins: seq<Win>, start: nat, end: nat,
                                            made: seq<TransferItem>, x: TransferItem)
    requires cfg.Valid() && Chained(cfg, wins, start, end)
    requires forall i :: 0 <= i < |wins| ==> multiset(wins[i].Deposits()) <= multiset(made)
    ensures multiset(AllDeposits(wins))[x] <= multiset(made)[x]
  {
    if wins != [] {
      var last := |wins| - 1;
      var win, init := wins[last], wins[..last];
      PlayedAtMostOnce(cfg, init, start, win.watermark, made, x);
      assert multiset(AllDeposits(init) + win.Deposits())[x] ==
             multiset(AllDeposits(init))[x] + multiset(win.Deposits())[x];
      if x in AllDeposits(init) && x in win.Deposits() {
        AllDepositHeights(cfg, init, start, win.watermark, x);
        DepositHeights(cfg, win, x);
      }
    }
  }

  /** What a balance is worth to the winners: all but the donation. */
  ghost function Share(cfg: Config, amount: nat): real {
    amount as real * (1.0 - cfg.donationPercent)
  }

  lemma ShareAdds(cfg: Config, a: nat, b: nat)
    requires cfg.Valid()
    ensures Share(cfg, a + b) == Share(cfg, a) + Share(cfg, b)
    ensures Share(cfg, b) >= 0.0
  {
    var x, y, share := a as real, b as real, 1.0 - cfg.donationPercent;
    assert (x + y) * share == x * share + y * share;
  }

  lemma FairReward(cfg: Config, win: Win)
    requires cfg.Valid() && Fair(cfg, win, win.watermark)
    ensures win.reward as real <= Share(cfg, Amount(win.Deposits()))
  {
    var _ := RewardOf(cfg, win.balance);
    hide RewardOf, OwnsTicket;
  }

  /** The rewards of a chain stay within the share of the deposits it played. */
  lemma {:induction false} RewardsWithinDeposits(cfg: Config, wins: seq<Win>, start: nat, end: nat)
    requires cfg.Valid() && Chained(cfg, wins, start, end)
    ensures PaidBy(wins) as real <= Share(cfg, Amount(AllDeposits(wins)))
  {
    if wins != [] {
      var win, init := wins[|wins| - 1], wins[..|wins| - 1];
      RewardsWithinDeposits(cfg, init, start, win.watermark);
      FairReward(cfg, win);
      hide Fair, Chained, ActiveDeposits, Share, Amount;
      AmountAppend(AllDeposits(init), win.Deposits());
      ShareAdds(cfg, Amount(AllDeposits(init)), Amount(win.Deposits()));
    }
  }

  /** Over any run of ticks, all rewards paid together stay within the share of all
      deposits ever made. */
  lemma RewardsWithinShareOfAllDeposits(cfg: Config, wins: seq<Win>, start: nat, end: nat, made: seq<TransferItem>)
    requires cfg.Valid() && Chained(cfg, wins, start, end)
    requires forall i :: 0 <= i < |wins| ==> multiset(wins[i].Deposits()) <= multiset(made)
    ensures PaidBy(wins) as real <= Share(cfg, Amount(made))
  {
    hide Fair, Chained, ActiveDeposits, Share, Amount, PaidBy, AllDeposits;
    RewardsWithinDeposits(cfg, wins, start, end);
    forall x: TransferItem ensures multiset(AllDeposits(wins))[x] <= multiset(made)[x] {
      PlayedAtMostOnce(cfg, wins, start, end, made, x);
    }
    AmountOfFewer(AllDeposits(wins), made);
    ShareAdds(cfg, Amount(AllDeposits(wins)), Amount(made) - Amount(AllDeposits(wins)));
  }

  // ------------------------------------------------ runs

  /** The flags and the watermark between two ticks. */
  datatype Moment = Moment(flags: Flags, watermark: nat)

  datatype Outcome = Outcome(win: Option<Win>, swept: bool)

  ghost predicate Shuffled(ticks: seq<Tick>) {
    forall i :: 0 <= i < |ticks| ==> IsShuffle(ticks[i].draw.shuffle)
  }

  /** One tick: what the flags, the day and the hour make it do, and what that changes. */
  ghost predicate Ticked(cfg: Config, was: Moment, now: Moment, t: Tick, o: Outcome)
    requires cfg.Valid() && IsShuffle(t.draw.shuffle)
  {
    var f := Flipped(was.flags, t);
    && (o.win.Some? ==> Fair(cfg, o.win.value, was.watermark) && FromAnswers(o.win.value, t.draw))
    && now.watermark == (if o.win.Some? then o.win.value.top else was.watermark)
    && match PhaseOf(cfg, f, t.day, t.hour) {
         case Drawing => !o.swept && DrawEnds(cfg, f, now.flags, t.draw, was.watermark, o.win)
         case Sweeping => o.win.None? && o.swept == MovesMoney(f, t.sweep) && now.flags == AfterSweep(f, t.sweep)
         case Resetting => o.win.None? && !o.swept && now.flags == AfterReset(f)
         case _ => o.win.None? && !o.swept && now.flags == f
       }
  }

  /** One tick after another. */
  ghost predicate IsRun(cfg: Config, moments: seq<Moment>, ticks: seq<Tick>, outcomes: seq<Outcome>)
    requires cfg.Valid() && Shuffled(ticks)
  {
    && |moments| == |ticks| + 1 && |outcomes| == |ticks|
    && forall i :: 0 <= i < |ticks| ==> Ticked(cfg, moments[i], moments[i + 1], ticks[i], outcomes[i])
  }

  lemma OneMoreTick(cfg: Config, moments: seq<Moment>, ticks: seq<Tick>, outcomes: seq<Outcome>,
                    now: Moment, t: Tick, o: Outcome)
    requires cfg.Valid() && Shuffled(ticks) && IsRun(cfg, moments, ticks, outcomes)
    requires IsShuffle(t.draw.shuffle) && Ticked(cfg, moments[|ticks|], now, t, o)
    ensures Shuffled(ticks + [t]) && IsRun(cfg, moments + [now], ticks + [t], outcomes + [o])
  {
    hide Ticked;
  }

  // ------------------------------------------------ what the clock makes the thread do

  /** The tick does not find the thread suspended. */
  predicate IsLive(was: Moment, t: Tick) {
    was.flags.suspended == t.toggled
  }

  /** A winner, or a draw that finds nobody. */
  predicate Draws(was: Moment, now: Moment, o: Outcome) {
    o.win.Some? || (!was.flags.noWinner && now.flags.noWinner)
  }

  /** A draw happens on the lottery's day, in its hour, once, and never while suspended. */
  lemma DrawOnlyInItsHour(cfg: Config, was: Moment, now: Moment, t: Tick, o: Outcome)
    requires cfg.Valid() && IsShuffle(t.draw.shuffle) && Ticked(cfg, was, now, t, o) && Draws(was, now, o)
    ensures t.day == cfg.day && t.hour == cfg.pick && IsLive(was, t)
    ensures !was.flags.noWinner && !was.flags.rewardGivenout && !o.swept
  {
    hide Fair, DrawEnds, FromAnswers;
  }

  /** The list that is shuffled at the tick, if the wallet answers. */
  ghost function InTheDraw(cfg: Config, was: Moment, t: Tick): seq<DiscordID>
    requires cfg.Valid()
  {
    if !t.draw.resync || t.draw.list.None? then [] else
      EntriesIn(cfg, Ordered(Listed(t.draw.list.value)), was.watermark)
  }

  /** And in that hour it does: with entries in the list the first of the shuffle is a winner
      or a blank, and the flags say so. Whatever throws suspends. */
  lemma DrawInItsHour(cfg: Config, was: Moment, now: Moment, t: Tick, o: Outcome)
    requires cfg.Valid() && IsShuffle(t.draw.shuffle) && Ticked(cfg, was, now, t, o)
    requires t.day == cfg.day && t.hour == cfg.pick && IsLive(was, t)
    requires !was.flags.noWinner && !was.flags.rewardGivenout
    ensures Draws(was, now, o) <==> InTheDraw(cfg, was, t) != []
    ensures now.flags.sweepComplete == was.flags.sweepComplete && !o.swept
    ensures !t.draw.resync || t.draw.list.None? ==> now.flags.suspended && !now.flags.rewardGivenout
    ensures t.draw.resync && t.draw.list.Some? && InTheDraw(cfg, was, t) == [] ==>
              !now.flags.suspended && !now.flags.rewardGivenout
    ensures InTheDraw(cfg, was, t) != [] ==>
              var shuffled := t.draw.shuffle(Padded(cfg, InTheDraw(cfg, was, t)));
              var told := t.draw.account && t.draw.message && t.draw.payout == Pays;
              && shuffled != []
              && (o.win.Some? ==> o.win.value.winner == shuffled[0]) && (o.win.Some? <==> shuffled[0] != 0)
              && (o.win.Some? ==>
                    (o.win.value.paid <==> t.draw.account && t.draw.message && t.draw.payout != Throws))
              && (now.flags.noWinner <==> shuffled[0] == 0)
              && (now.flags.rewardGivenout <==> t.draw.save && (shuffled[0] != 0 ==> told))
              && now.flags.suspended == !now.flags.rewardGivenout
  {
    hide Fair, EntriesOf, ActiveDeposits, Padded, Ordered, Listed, IsShuffle;
    if InTheDraw(cfg, was, t) != [] {
      DrawnOwnsATicket(cfg, ActiveDeposits(Ordered(Listed(t.draw.list.value)), was.watermark), t.draw.shuffle);
    }
  }

  /** Money is swept on the lottery's day, in the sweep's hour, unless that is done or nobody won. */
  lemma SweepOnlyInItsHour(cfg: Config, was: Moment, now: Moment, t: Tick, o: Outcome)
    requires cfg.Valid() && IsShuffle(t.draw.shuffle) && Ticked(cfg, was, now, t, o)
    requires o.swept || (!was.flags.sweepComplete && now.flags.sweepComplete)
    ensures t.day == cfg.day && t.hour == cfg.faucet && IsLive(was, t) && !was.flags.sweepComplete && t.sweep.resync
    ensures o.swept ==> !was.flags.noWinner && t.sweep.transfer != Throws
  {
    hide Fair, FromAnswers, Drawn;
  }

  /** And in that hour it is, if the draw does not come first. */
  lemma SweepInItsHour(cfg: Config, was: Moment, now: Moment, t: Tick, o: Outcome)
    requires cfg.Valid() && IsShuffle(t.draw.shuffle) && Ticked(cfg, was, now, t, o)
    requires t.day == cfg.day && t.hour == cfg.faucet && IsLive(was, t) && !was.flags.sweepComplete
    requires cfg.pick != cfg.faucet || was.flags.noWinner || was.flags.rewardGivenout
    ensures o.swept <==> t.sweep.resync && !was.flags.noWinner && t.sweep.transfer != Throws
    ensures var done := t.sweep.resync && (was.flags.noWinner || t.sweep.transfer == Pays);
            now.flags == Flags(was.flags.rewardGivenout, done, was.flags.noWinner && !done, false)
  {
    hide Fair, FromAnswers, DrawEnds;
  }

  /** A new week begins for a live thread once the draw's reward is out and the sweep done,
      or nobody won and the lottery is not closed for the day; but not at a tick that
      belongs to the sweep. */
  lemma ResetIff(cfg: Config, was: Moment, now: Moment, t: Tick, o: Outcome)
    requires cfg.Valid() && IsShuffle(t.draw.shuffle) && Ticked(cfg, was, now, t, o) && was.flags.rewardGivenout
    ensures !now.flags.rewardGivenout <==>
            && IsLive(was, t)
            && (was.flags.sweepComplete ||
                (was.flags.noWinner && t.hour < cfg.close && !(t.day == cfg.day && t.hour == cfg.faucet)))
    ensures !now.flags.rewardGivenout ==> !now.flags.sweepComplete && now.flags.noWinner == was.flags.noWinner
  {
    hide Fair, FromAnswers, DrawEnds;
  }

  /** Out of these hours, and with no reward out, a live thread waits. */
  lemma QuietTickDoesNothing(cfg: Config, was: Moment, now: Moment, t: Tick, o: Outcome)
    requires cfg.Valid() && IsShuffle(t.draw.shuffle) && Ticked(cfg, was, now, t, o)
    requires IsLive(was, t) && !was.flags.rewardGivenout
    requires t.day == cfg.day ==> (t.hour != cfg.pick || was.flags.noWinner) &&
                                  (t.hour != cfg.faucet || was.flags.sweepComplete)
    ensures now == was.(flags := was.flags.(suspended := false)) && o == Outcome(None, false)
  {
    hide Fair, FromAnswers, DrawEnds;
  }

  /** A suspended tick changes nothing, and no tick but a draw or the switch suspends. */
  lemma SuspendedTickDoesNothing(cfg: Config, was: Moment, now: Moment, t: Tick, o: Outcome)
    requires cfg.Valid() && IsShuffle(t.draw.shuffle) && Ticked(cfg, was, now, t, o)
    ensures !IsLive(was, t) ==> now == was.(flags := was.flags.(suspended := true)) && o == Outcome(None, false)
    ensures IsLive(was, t) && now.flags.suspended ==> t.day == cfg.day && t.hour == cfg.pick
  {
    hide Fair, FromAnswers, DrawEnds;
  }

  /** After a draw has given out its reward, or found nobody, there is no second one
      before a reset. */
  lemma {:induction false} NoSecondDraw(cfg: Config, moments: seq<Moment>, ticks: seq<Tick>, outcomes: seq<Outcome>,
                                        i: nat, j: nat)
    requires cfg.Valid() && Shuffled(ticks) && IsRun(cfg, moments, ticks, outcomes) && i < j < |ticks|
    requires moments[i + 1].flags.rewardGivenout && Draws(moments[j], moments[j + 1], outcomes[j])
    ensures exists m :: i < m < j && moments[m].flags.rewardGivenout && !moments[m + 1].flags.rewardGivenout
    decreases j
  {
    hide Ticked;
    DrawOnlyInItsHour(cfg, moments[j], moments[j + 1], ticks[j], outcomes[j]);
    FlagFalls(moments, i + 1, j);
  }

  lemma {:induction false} FlagFalls(moments: seq<Moment>, i: nat, j: nat)
    requires i <= j < |moments| && moments[i].flags.rewardGivenout && !moments[j].flags.rewardGivenout
    ensures exists m :: i <= m < j && moments[m].flags.rewardGivenout && !moments[m + 1].flags.rewardGivenout
    decreases j
  {
    if moments[j - 1].flags.rewardGivenout {
      assert i <= j - 1 < j;
    } else {
      FlagFalls(moments, i, j - 1);
    }
  }

  // ------------------------------------------------ the draws of a run

  /** The winning draws of a run, in order. */
  ghost function Winners(outcomes: seq<Outcome>): seq<Win> {
    if outcomes == [] then [] else
      var before, last := Winners(outcomes[..|outcomes| - 1]), outcomes[|outcomes| - 1];
      if last.win.Some? then before + [last.win.value] else before
  }

  lemma RunPrefix(cfg: Config, moments: seq<Moment>, ticks: seq<Tick>, outcomes: seq<Outcome>, n: nat)
    requires cfg.Valid() && Shuffled(ticks) && IsRun(cfg, moments, ticks, outcomes) && n <= |ticks|
    ensures Shuffled(ticks[..n]) && IsRun(cfg, moments[..n + 1], ticks[..n], outcomes[..n])
  {
    hide Ticked;
  }

  /** The winning draws of any run form a chain of rising watermarks. */
  lemma {:induction false} RunIsChained(cfg: Config, moments: seq<Moment>, ticks: seq<Tick>, outcomes: seq<Outcome>)
    requires cfg.Valid() && Shuffled(ticks) && IsRun(cfg, moments, ticks, outcomes)
    ensures Chained(cfg, Winners(outcomes), moments[0].watermark, moments[|ticks|].watermark)
  {
    if ticks != [] {
      var n := |ticks| - 1;
      RunPrefix(cfg, moments, ticks, outcomes, n);
      RunIsChained(cfg, moments[..n + 1], ticks[..n], outcomes[..n]);
      assert Ticked(cfg, moments[n], moments[n + 1], ticks[n], outcomes[n]);
      var last := outcomes[n].win;
      if last.Some? {
        hide Fair, DrawEnds;
        FairWatermark(cfg, last.value, moments[n].watermark);
        ChainSnoc(cfg, Winners(outcomes[..n]), moments[0].watermark, moments[n].watermark, last.value);
      }
    }
  }

  lemma FairWatermark(cfg: Config, win: Win, watermark: nat)
    requires cfg.Valid() && Fair(cfg, win, watermark)
    ensures win.watermark == watermark
  {
  }

  /** Every deposit that the wallet lists at some tick was made, as often as listed. */
  ghost predicate ListedWithin(ticks: seq<Tick>, made: seq<TransferItem>) {
    forall i :: 0 <= i < |ticks| && ticks[i].draw.list.Some? ==>
      multiset(Listed(ticks[i].draw.list.value)) <= multiset(made)
  }

  lemma {:induction false} ActiveAreFewer(history: seq<TransferItem>, watermark: nat)
    ensures multiset(ActiveDeposits(history, watermark)) <= multiset(history)
  {
    if history != [] {
      var n := |history| - 1;
      ActiveAreFewer(history[..n], watermark);
      assert history == history[..n] + [history[n]];
    }
  }

  lemma {:induction false} WinnersPlayWhatWasMade(cfg: Config, moments: seq<Moment>, ticks: seq<Tick>,
                                                  outcomes: seq<Outcome>, made: seq<TransferItem>, w: nat)
    requires cfg.Valid() && Shuffled(ticks) && IsRun(cfg, moments, ticks, outcomes) && ListedWithin(ticks, made)
    requires w < |Winners(outcomes)|
    ensures multiset(Winners(outcomes)[w].Deposits()) <= multiset(made)
  {
    var n := |ticks| - 1;
    RunPrefix(cfg, moments, ticks, outcomes, n);
    if w < |Winners(outcomes[..n])| {
      WinnersPlayWhatWasMade(cfg, moments[..n + 1], ticks[..n], outcomes[..n], made, w);
    } else {
      assert Ticked(cfg, moments[n], moments[n + 1], ticks[n], outcomes[n]);
      hide Fair, DrawEnds;
      var win := outcomes[n].win.value;
      OrderedSameItems(Listed(ticks[n].draw.list.value));
      ActiveAreFewer(win.history, win.watermark);
    }
  }

  /** Over any run of ticks, all rewards paid together stay within the share of all
      deposits ever made. */
  lemma RunPaysWithinShare(cfg: Config, moments: seq<Moment>, ticks: seq<Tick>, outcomes: seq<Outcome>,
                           made: seq<TransferItem>)
    requires cfg.Valid() && Shuffled(ticks) && IsRun(cfg, moments, ticks, outcomes) && ListedWithin(ticks, made)
    ensures PaidBy(Winners(outcomes)) as real <= Share(cfg, Amount(made))
  {
    var wins := Winners(outcomes);
    hide Ticked, Fair, IsRun, Winners, PaidBy, Share, Amount;
    RunIsChained(cfg, moments, ticks, outcomes);
    forall w | 0 <= w < |wins| ensures multiset(wins[w].Deposits()) <= multiset(made) {
      WinnersPlayWhatWasMade(cfg, moments, ticks, outcomes, made, w);
    }
    RunEnds(cfg, moments, ticks, outcomes);
    RewardsWithinShareOfAllDeposits(cfg, wins, moments[0].watermark, moments[|ticks|].watermark, made);
  }

  lemma RunEnds(cfg: Config, moments: seq<Moment>, ticks: seq<Tick>, outcomes: seq<Outcome>)
    requires cfg.Valid() && Shuffled(ticks) && IsRun(cfg, moments, ticks, outcomes)
    ensures |moments| == |ticks| + 1 && |outcomes| == |ticks|
  {
  }

  // ------------------------------------------------ when the jackpot rolls over

  /** One unsuspended tick in the sweeping hour of the lottery day. */
  function SweepingHour(cfg: Config, f: Flags, a: SweepAnswers): (Flags, bool) {
    match PhaseOf(cfg, f, cfg.day, cfg.faucet)
    case Sweeping => (AfterSweep(f, a), MovesMoney(f, a))
    case Resetting => (AfterReset(f), false)
    case _ => (f, false)
  }

  /** Whether the ticks of the hour give the balance away. */
  ghost predicate GivenAway(cfg: Config, f: Flags, hour: seq<SweepAnswers>)
    decreases |hour|
  {
    hour != [] &&
    (SweepingHour(cfg, f, hour[0]).1 || GivenAway(cfg, SweepingHour(cfg, f, hour[0]).0, hour[1..]))
  }

  /** Every tick falls in the sweeping hour, which is not the hour of the draw. */
  ghost predicate InSweepingHour(cfg: Config, ticks: seq<Tick>) {
    cfg.pick != cfg.faucet &&
    forall i :: 0 <= i < |ticks| ==> ticks[i].day == cfg.day && ticks[i].hour == cfg.faucet
  }

  /** Whether ticks of the hour give the balance away, with the switch flipped now and then. */
  ghost predicate MovesWithin(cfg: Config, f: Flags, ticks: seq<Tick>)
    decreases |ticks|
  {
    ticks != [] &&
    var (next, moved) := SweepingHour(cfg, Flipped(f, ticks[0]), ticks[0].sweep);
    moved || MovesWithin(cfg, next, ticks[1..])
  }

  /** The answers at the ticks that do not find the thread suspended. */
  ghost function Live(suspended: bool, ticks: seq<Tick>): seq<SweepAnswers>
    decreases |ticks|
  {
    if ticks == [] then [] else
      var still := suspended != ticks[0].toggled;
      (if still then [] else [ticks[0].sweep]) + Live(still, ticks[1..])
  }

  /** Suspended ticks neither help nor hurt. */
  lemma {:induction false} OnlyLiveTicksCount(cfg: Config, f: Flags, ticks: seq<Tick>)
    ensures MovesWithin(cfg, f, ticks) <==> GivenAway(cfg, f.(suspended := false), Live(f.suspended, ticks))
    decreases |ticks|
  {
    if ticks != [] {
      var flipped := Flipped(f, ticks[0]);
      var (next, moved) := SweepingHour(cfg, flipped, ticks[0].sweep);
      OnlyLiveTicksCount(cfg, next, ticks[1..]);
      if !flipped.suspended {
        var live := Live(f.suspended, ticks);
        assert live[0] == ticks[0].sweep && live[1..] == Live(false, ticks[1..]);
        assert flipped == f.(suspended := false);
      } else {
        assert next == flipped && Live(f.suspended, ticks) == Live(true, ticks[1..]);
      }
    }
  }

  /** The flags once a draw has found no winner, and the flags of a new week. */
  const AFTER_BLANK := Flags(true, false, true, false)
  const FRESH := Flags(false, false, false, false)

  ghost predicate Reaches(hour: seq<SweepAnswers>, k: nat)
    requires k < |hour|
  {
    hour[k].resync && hour[k].transfer != Throws
  }

  lemma {:induction false} FreshGivesAway(cfg: Config, hour: seq<SweepAnswers>)
    requires cfg.pick != cfg.faucet
    ensures GivenAway(cfg, FRESH, hour) <==> exists k: nat :: k < |hour| && Reaches(hour, k)
  {
    if hour == [] {
    } else if Reaches(hour, 0) {
      assert SweepingHour(cfg, FRESH, hour[0]).1;
    } else {
      assert SweepingHour(cfg, FRESH, hour[0]) == (FRESH, false);
      FreshGivesAway(cfg, hour[1..]);
      if k: nat :| k < |hour| && Reaches(hour, k) {
        assert k > 0 && Reaches(hour[1..], k - 1);
      }
      if k: nat :| k < |hour[1..]| && Reaches(hour[1..], k) {
        assert Reaches(hour, k + 1);
      }
    }
  }

  /** Right after a draw without a winner: the first answered tick clears `noWinner`,
      the next one resets the flags, and from then on a tick may sweep. */
  lemma {:induction false} BlankGivesAway(cfg: Config, hour: seq<SweepAnswers>)
    requires cfg.pick != cfg.faucet
    ensures GivenAway(cfg, AFTER_BLANK, hour) <==>
            exists i: nat, k: nat :: i + 2 <= k < |hour| && hour[i].resync && Reaches(hour, k)
  {
    if hour != [] {
      var rest := hour[1..];
      if hour[0].resync {
        if rest != [] {
          assert rest[1..] == hour[2..];
          FreshGivesAway(cfg, hour[2..]);
          if k: nat :| k < |hour[2..]| && Reaches(hour[2..], k) {
            assert Reaches(hour, k + 2) && hour[0].resync;
          }
          if i: nat, k: nat :| i + 2 <= k < |hour| && hour[i].resync && Reaches(hour, k) {
            assert Reaches(hour[2..], k - 2);
          }
        }
      } else {
        BlankGivesAway(cfg, rest);
        if i: nat, k: nat :| i + 2 <= k < |rest| && rest[i].resync && Reaches(rest, k) {
          assert Reaches(hour, k + 1) && hour[i + 1].resync;
        }
        if i: nat, k: nat :| i + 2 <= k < |hour| && hour[i].resync && Reaches(hour, k) {
          assert Reaches(rest, k - 1) && rest[i - 1].resync;
        }
      }
    }
  }

  /** Flags that no tick of the hour leads to a sweep that moves money. */
  predicate Stuck(f: Flags) {
    f.suspended || (!f.rewardGivenout && (f.sweepComplete || f.noWinner))
  }

  lemma {:induction false} StuckNeverGivesAway(cfg: Config, f: Flags, hour: seq<SweepAnswers>)
    requires cfg.pick != cfg.faucet && Stuck(f)
    ensures !GivenAway(cfg, f, hour)
    decreases |hour|
  {
    if hour != [] {
      StuckNeverGivesAway(cfg, SweepingHour(cfg, f, hour[0]).0, hour[1..]);
    }
  }

  /** The wallet answers one tick and lets a sweep through two or more ticks later. */
  ghost predicate AnswersThenSweeps(hour: seq<SweepAnswers>) {
    exists i: nat, k: nat :: i + 2 <= k < |hour| && hour[i].resync && Reaches(hour, k)
  }

  lemma GivenAwayIff(cfg: Config, f: Flags, hour: seq<SweepAnswers>)
    requires cfg.pick != cfg.faucet && f.noWinner
    ensures GivenAway(cfg, f, hour) <==>
            !f.suspended && f.rewardGivenout && !f.sweepComplete && AnswersThenSweeps(hour)
  {
    if Stuck(f) {
      StuckNeverGivesAway(cfg, f, hour);
    } else if f.sweepComplete {
      if hour != [] {
        assert Stuck(SweepingHour(cfg, f, hour[0]).0);
        StuckNeverGivesAway(cfg, SweepingHour(cfg, f, hour[0]).0, hour[1..]);
      }
    } else {
      assert f == AFTER_BLANK;
      BlankGivesAway(cfg, hour);
    }
  }

  /** The rules promise that without a winner the jackpot rolls over. While `noWinner`
      stands, whatever the other flags and whoever flips the switch, the hour of the
      sweep gives it away exactly when the draw's flag stands and the sweep's does
      not, and, among the ticks that do not find the thread suspended, the wallet
      answers at one and lets the sweep through at another two or more later. It
      rolls over in every other case. */
  lemma JackpotGivenAwayIff(cfg: Config, f: Flags, ticks: seq<Tick>)
    requires cfg.pick != cfg.faucet && f.noWinner
    ensures MovesWithin(cfg, f, ticks) <==>
            f.rewardGivenout && !f.sweepComplete && AnswersThenSweeps(Live(f.suspended, ticks))
  {
    OnlyLiveTicksCount(cfg, f, ticks);
    GivenAwayIff(cfg, f.(suspended := false), Live(f.suspended, ticks));
  }

  /** Over the ticks of a sweeping hour a run gives the balance away as the flags at
      its start say. */
  lemma {:induction false} RunGivesAway(cfg: Config, moments: seq<Moment>, ticks: seq<Tick>,
                                        outcomes: seq<Outcome>, i: nat)
    requires cfg.Valid() && Shuffled(ticks) && IsRun(cfg, moments, ticks, outcomes) && InSweepingHour(cfg, ticks)
    requires i <= |ticks|
    ensures MovesWithin(cfg, moments[i].flags, ticks[i..]) <==> exists k :: i <= k < |ticks| && outcomes[k].swept
    decreases |ticks| - i
  {
    if i < |ticks| {
      assert Ticked(cfg, moments[i], moments[i + 1], ticks[i], outcomes[i]);
      RunGivesAway(cfg, moments, ticks, outcomes, i + 1);
      hide DrawEnds, Fair;
      assert ticks[i..][1..] == ticks[i + 1..];
    }
  }

  /** Flags from which no tick sweeps money when draw and sweep share an hour. */
  predicate RollsOver(f: Flags) {
    f.noWinner || !f.rewardGivenout || f.sweepComplete
  }

  lemma EqualHoursStep(cfg: Config, was: Moment, now: Moment, t: Tick, o: Outcome)
    requires cfg.Valid() && IsShuffle(t.draw.shuffle) && Ticked(cfg, was, now, t, o)
    requires cfg.pick == cfg.faucet && RollsOver(was.flags) && o.win.None?
    ensures !o.swept && RollsOver(now.flags)
  {
    hide Fair, Drawn;
  }

  /** A configuration that draws and sweeps in the same hour keeps the promise: over any
      run of any ticks, from the flags of a new thread on, no money is swept before
      a draw has found a winner. */
  lemma {:induction false} EqualHoursRollOver(cfg: Config, moments: seq<Moment>, ticks: seq<Tick>,
                                              outcomes: seq<Outcome>, k: nat)
    requires cfg.Valid() && Shuffled(ticks) && IsRun(cfg, moments, ticks, outcomes)
    requires cfg.pick == cfg.faucet && RollsOver(moments[0].flags) && k <= |ticks|
    ensures (forall j :: 0 <= j < k ==> outcomes[j].win.None?) ==> RollsOver(moments[k].flags)
    ensures k < |ticks| && outcomes[k].swept ==> exists j :: 0 <= j < k && outcomes[j].win.Some?
  {
    hide Ticked, RollsOver;
    if k > 0 {
      EqualHoursRollOver(cfg, moments, ticks, outcomes, k - 1);
      if forall j :: 0 <= j < k ==> outcomes[j].win.None? {
        EqualHoursStep(cfg, moments[k - 1], moments[k], ticks[k - 1], outcomes[k - 1]);
      }
    }
    if k < |ticks| && outcomes[k].swept && forall j :: 0 <= j < k ==> outcomes[j].win.None? {
      SweepHasNoWin(cfg, moments[k], moments[k + 1], ticks[k], outcomes[k]);
      EqualHoursStep(cfg, moments[k], moments[k + 1], ticks[k], outcomes[k]);
    }
  }

  lemma SweepHasNoWin(cfg: Config, was: Moment, now: Moment, t: Tick, o: Outcome)
    requires cfg.Valid() && IsShuffle(t.draw.shuffle) && Ticked(cfg, was, now, t, o) && o.swept
    ensures o.win.None?
  {
    hide Fair, DrawEnds;
  }

  /** Three answered ticks are enough. */
  lemma JackpotCanBeGivenAway(cfg: Config)
    requires cfg.pick != cfg.faucet
    ensures var ok := SweepAnswers(true, Pays);
            GivenAway(cfg, AFTER_BLANK, [ok, ok, ok])
  {
    var ok := SweepAnswers(true, Pays);
    var hour := [ok, ok, ok];
    assert 0 + 2 <= 2 < |hour| && hour[0].resync && Reaches(hour, 2);
    BlankGivesAway(cfg, hour);
  }

  // ------------------------------------------------ the thread

  class LotteryThread {
    const cfg: Config
    var rewardGivenout: bool
    var sweepComplete: bool
    var noWinner: bool
    var lotterySuspended: bool
    var lastWinningTopBlock: nat
    var prevWinner: DiscordID

    constructor (config: Config, savedTopBlock: nat, savedWinner: DiscordID)
      ensures cfg == config && lastWinningTopBlock == savedTopBlock && prevWinner == savedWinner
      ensures Now() == Flags(false, false, false, false)
    {
      cfg, lastWinningTopBlock, prevWinner := config, savedTopBlock, savedWinner;
      rewardGivenout, sweepComplete, noWinner, lotterySuspended := false, false, false, false;
    }

    ghost function Now(): Flags
      reads this
    {
      Flags(rewardGivenout, sweepComplete, noWinner, lotterySuspended)
    }

    /** The list of entries and the balance in play. */
    method Collect(txs: seq<TransferItem>) returns (entries: seq<DiscordID>, bal: nat)
      requires cfg.Valid()
      ensures entries == EntriesIn(cfg, txs, lastWinningTopBlock) && bal == Balance(txs, lastWinningTopBlock)
    {
      entries, bal := [], 0;
      for i := 0 to |txs|
        invariant entries == EntriesIn(cfg, txs[..i], lastWinningTopBlock)
        invariant bal == Balance(txs[..i], lastWinningTopBlock)
      {
        var tx := txs[i];
        ActiveSnoc(txs, i, lastWinningTopBlock);
        if Active(tx, lastWinningTopBlock) {
          ghost var active := ActiveDeposits(txs[..i], lastWinningTopBlock);
          EntriesSnoc(cfg, active, tx);
          AmountSnoc(active, tx);
          var tickets := Tickets(cfg, tx.amount);
          entries := AddCopies(entries, tx.paymentId, tickets);
          bal := bal + tx.amount;
        }
      }
      assert txs[..|txs|] == txs;
    }

    method AddCopies(entries: seq<DiscordID>, id: DiscordID, tickets: nat) returns (more: seq<DiscordID>)
      ensures more == entries + Repeat(id, tickets)
    {
      more := entries;
      for j := 0 to tickets
        invariant more == entries + Repeat(id, j)
      {
        more := more + [id];
      }
    }

    /** Appends the blank tickets, one for each round of the loop. */
    method AddBlanks(entries: seq<DiscordID>) returns (padded: seq<DiscordID>)
      requires cfg.Valid()
      ensures padded == Padded(cfg, entries)
    {
      var amountOfBlankTickets := |entries| as real * cfg.noWinnerChance;
      var i: nat := 0;
      padded := entries;
      while i as real < amountOfBlankTickets
        invariant i <= Rounds(amountOfBlankTickets) && padded == entries + Repeat(0, i)
        decreases Rounds(amountOfBlankTickets) - i
      {
        padded := padded + [0];
        i := i + 1;
      }
    }

    /** The draw. Whatever throws suspends the lottery, and leaves in place what was
        done before: the watermark above all. */
    method Draw(a: DrawAnswers) returns (win: Option<Win>)
      requires cfg.Valid() && IsShuffle(a.shuffle)
      modifies this
      ensures win.Some? ==> Fair(cfg, win.value, old(lastWinningTopBlock)) && lastWinningTopBlock == win.value.top
      ensures win.None? ==> lastWinningTopBlock == old(lastWinningTopBlock)
      ensures DrawEnds(cfg, old(Now()), Now(), a, old(lastWinningTopBlock), win)
      ensures prevWinner == if win.Some? && Answered(a) then win.value.winner
                            else if BlankDrawn(cfg, a, old(lastWinningTopBlock)) then 0 else old(prevWinner)
    {
      assert EntriesIn(cfg, [], lastWinningTopBlock) == [];
      DrawnFrom(cfg, a, lastWinningTopBlock);
      hide Padded, Fair, AfterDrawing, Ordered, Listed, Mirrors, Sorted, Drawn, EntriesIn, IsShuffle, PaidOut, Answered;
      if !a.resync || a.list.None? {
        lotterySuspended := true;
        return None;
      }
      var txs := ProcessList(a.list.value);
      OrderedIsSorted(Listed(a.list.value));
      win := None;
      if txs != [] {
        win := DrawFrom(txs, a);
      }
    }

    /** Collects the entries of a history, adds the blanks, shuffles, and takes the first. */
    method DrawFrom(txs: seq<TransferItem>, a: DrawAnswers) returns (win: Option<Win>)
      requires cfg.Valid() && IsShuffle(a.shuffle) && Sorted(txs)
      modifies this
      ensures win.Some? ==> Fair(cfg, win.value, old(lastWinningTopBlock)) && lastWinningTopBlock == win.value.top
      ensures win.None? ==> lastWinningTopBlock == old(lastWinningTopBlock)
      ensures var entries := EntriesIn(cfg, txs, old(lastWinningTopBlock));
              if entries == [] then win.None? && Now() == old(Now()) && prevWinner == old(prevWinner) else
                var shuffled := a.shuffle(Padded(cfg, entries));
                && shuffled != [] && (win.Some? <==> shuffled[0] != 0)
                && (win.Some? ==> && win.value.winner == shuffled[0] && (win.value.paid <==> PaidOut(a))
                                  && win.value.history == txs)
                && Now() == AfterDrawing(old(Now()), shuffled[0], a)
                && prevWinner == if shuffled[0] == 0 || Answered(a) then shuffled[0] else old(prevWinner)
    {
      assert EntriesOf(cfg, []) == [];
      hide Padded, Fair, Balance, OwnsTicket, ActiveDeposits, EntriesOf, AfterDrawing, Sorted;
      win := None;
      var entries, bal := Collect(txs);
      if entries != [] {
        DrawnOwnsATicket(cfg, ActiveDeposits(txs, lastWinningTopBlock), a.shuffle);
        entries := AddBlanks(entries);
        entries := a.shuffle(entries);
        if entries[0] != 0 {
          ActiveMeansTopActive(txs, lastWinningTopBlock);
        }
        win := Decide(entries[0], txs, bal, a);
      }
    }

    /** What follows from the first entry: raise the watermark and pay, or note that
        nobody won; then save. */
    method Decide(winner: DiscordID, txs: seq<TransferItem>, bal: nat, a: DrawAnswers) returns (win: Option<Win>)
      requires cfg.Valid() && Sorted(txs) && bal == Balance(txs, lastWinningTopBlock)
      requires winner != 0 ==> && txs != [] && txs[0].blockHeight > lastWinningTopBlock
                               && OwnsTicket(cfg, ActiveDeposits(txs, lastWinningTopBlock), winner)
      modifies this
      ensures win.Some? <==> winner != 0
      ensures win.Some? ==> && win.value.winner == winner && (win.value.paid <==> PaidOut(a))
                            && win.value.history == txs
                            && Fair(cfg, win.value, old(lastWinningTopBlock)) && lastWinningTopBlock == win.value.top
      ensures win.None? ==> lastWinningTopBlock == old(lastWinningTopBlock)
      ensures Now() == AfterDrawing(old(Now()), winner, a)
      ensures prevWinner == if winner == 0 || Answered(a) then winner else old(prevWinner)
    {
      win := None;
      if winner != 0 {
        var reward := RewardOf(cfg, bal);
        var paid := a.account && a.message && a.payout != Throws;
        win := Some(Win(winner, lastWinningTopBlock, txs[0].blockHeight, txs, bal, reward, paid));
        lastWinningTopBlock := txs[0].blockHeight;
        if !a.account || !a.message || a.payout != Pays {
          lotterySuspended := true;
          return;
        }
        prevWinner := winner;
      } else {
        prevWinner := 0;
        noWinner := true;
      }
      if !a.save {
        lotterySuspended := true;
        return;
      }
      rewardGivenout := true;
    }

    /** The sweep: a failure leaves the flags for the next try. */
    method Sweep(a: SweepAnswers) returns (swept: bool)
      modifies this`noWinner, this`sweepComplete
      ensures swept == MovesMoney(old(Now()), a) && Now() == AfterSweep(old(Now()), a)
    {
      if !a.resync {
        return false;
      }
      swept := false;
      if !noWinner {
        if a.transfer == Throws {
          return false;
        }
        swept := true;
        if a.transfer == PaysThenThrows {
          return;
        }
      }
      noWinner := false;
      sweepComplete := true;
    }

    /** One look at the clock, after the administrator may have flipped the switch. */
    method OneTick(t: Tick) returns (win: Option<Win>, swept: bool)
      requires cfg.Valid() && IsShuffle(t.draw.shuffle)
      modifies this
      ensures Ticked(cfg, old(Moment(Now(), lastWinningTopBlock)), Moment(Now(), lastWinningTopBlock), t,
                     Outcome(win, swept))
    {
      win, swept := None, false;
      if t.toggled {
        lotterySuspended := !lotterySuspended;
      }
      if !lotterySuspended {
        if !noWinner && !rewardGivenout && t.day == cfg.day && t.hour == cfg.pick {
          win := Draw(t.draw);
        } else if !sweepComplete && t.day == cfg.day && t.hour == cfg.faucet {
          swept := Sweep(t.sweep);
        } else {
          if (rewardGivenout && sweepComplete) || (rewardGivenout && noWinner && t.hour < cfg.close) {
            sweepComplete := false;
            rewardGivenout := false;
          }
        }
      }
    }

    /** Any number of ticks: a run of the lottery's state machine. All rewards it pays
        stay within the share of the deposits that the wallet ever listed. */
    method Run(ticks: seq<Tick>) returns (outcomes: seq<Outcome>, ghost moments: seq<Moment>)
      requires cfg.Valid() && Shuffled(ticks)
      modifies this
      ensures IsRun(cfg, moments, ticks, outcomes)
      ensures moments[0] == old(Moment(Now(), lastWinningTopBlock))
      ensures moments[|ticks|] == Moment(Now(), lastWinningTopBlock)
      ensures forall made :: ListedWithin(ticks, made) ==>
                PaidBy(Winners(outcomes)) as real <= Share(cfg, Amount(made))
    {
      outcomes, moments := [], [Moment(Now(), lastWinningTopBlock)];
      for i := 0 to |ticks|
        invariant IsRun(cfg, moments, ticks[..i], outcomes)
        invariant moments[0] == old(Moment(Now(), lastWinningTopBlock))
        invariant moments[i] == Moment(Now(), lastWinningTopBlock)
      {
        hide Ticked;
        var win, swept := OneTick(ticks[i]);
        ghost var now := Moment(Now(), lastWinningTopBlock);
        OneMoreTick(cfg, moments, ticks[..i], outcomes, now, ticks[i], Outcome(win, swept));
        assert ticks[..i] + [ticks[i]] == ticks[..i + 1];
        outcomes, moments := outcomes + [Outcome(win, swept)], moments + [now];
      }
      assert ticks[..|ticks|] == ticks;
      forall made | ListedWithin(ticks, made)
        ensures PaidBy(Winners(outcomes)) as real <= Share(cfg, Amount(made))
      {
        RunPaysWithinShare(cfg, moments, ticks, outcomes, made);
      }
    }
  }
}
