/** The faucet (src/Faucet.cpp): anyone may take a share of the bot's balance, once
    in a while. */
module Faucet {
  import opened Accounts
  import opened RpcManager
  import opened Types
  import opened Wrappers

  const TWO_64: nat := 0x1_0000_0000_0000_0000

  /** The share is the exact fraction `part / whole`; times are in microseconds. */
  datatype Config = Config(part: nat, whole: nat, minAge: nat, timeout: nat, bot: DiscordID)
  {
    predicate Valid() {
      0 < whole && part <= whole
    }
  }

  datatype DiscordUser = DiscordUser(joinEpochTime: nat, faucetEpochTime: nat, totalSent: nat)

  /** What the wallet answers to a transfer: how much of its funds is locked after the
      resync, the fee it takes, and whether it sends and then stores the note. */
  datatype TransferAnswers = TransferAnswers(locked: Option<nat>, validLength: bool, sends: bool, fee: nat, note: bool)

  /** What is answered during one command: the first resync, whether Discord knows a
      user who is not in the list, and whether the opened wallet is the bot's own. */
  datatype TakeAnswers = TakeAnswers(locked: Option<nat>, found: bool, genuine: bool, transfer: TransferAnswers)

  datatype Event =
    | Take(id: DiscordID, now: nat, answers: TakeAnswers)
    | Deposit(amount: nat)
    | Toggle

  /** A payment, to whom, and on whose record it is kept, if the command got that far. */
  datatype Grant = Grant(to: DiscordID, record: DiscordID, time: nat, amount: nat, fee: nat, recorded: bool)

  function Unlocked(funds: nat, locked: nat): (unlocked: nat)
    ensures unlocked <= funds && (locked <= funds ==> unlocked + locked == funds)
    ensures locked > funds ==> unlocked == 0
  {
    if locked <= funds then funds - locked else 0
  }

  function Share(cfg: Config, unlocked: nat): (amount: nat)
    requires cfg.Valid()
    ensures amount * cfg.whole <= unlocked * cfg.part < (amount + 1) * cfg.whole
  {
    unlocked * cfg.part / cfg.whole
  }

  /** The age check in 64-bit unsigned arithmetic. */
  predicate OldEnough(cfg: Config, now: nat, join: nat) {
    (now - join) % TWO_64 >= cfg.minAge
  }

  /** The check is right but for an account whose joining lies in the future: that one
      passes, since the difference wraps around. */
  lemma OldEnoughIff(cfg: Config, now: nat, join: nat)
    requires now < TWO_64 && join < TWO_64 && cfg.minAge < TWO_64
    ensures OldEnough(cfg, now, join) <==> now >= join + cfg.minAge || join - (TWO_64 - cfg.minAge) <= now < join
  {
    if now < join {
      assert (now - join) % TWO_64 == now - join + TWO_64;
    }
  }

  /** When an account was made, from the time in its id. */
  function JoinTime(id: DiscordID): nat {
    (id / 0x40_0000 + 1420070400000) * 1000 % TWO_64
  }

  /** An id made t milliseconds after the start of the year 2015 (1420070400 seconds after
      the epoch) carries that time above its lowest 22 bits, here in microseconds. */
  lemma JoinTimeIsInTheId(t: nat, low: nat)
    requires low < 0x40_0000 && t * 0x40_0000 + low < TWO_64
    ensures JoinTime(t * 0x40_0000 + low) == t * 1000 + 1420070400 * 1_000_000
  {
    assert (t * 0x40_0000 + low) / 0x40_0000 == t;
  }

  /** An account made a microsecond from now passes, whatever the age asked for. */
  lemma FutureAccountPasses(cfg: Config, id: DiscordID)
    requires id < TWO_64 && cfg.minAge < TWO_64
    ensures var now := JoinTime(id) - 1; 0 <= now < JoinTime(id) && OldEnough(cfg, now, JoinTime(id))
  {
    var millis := id / 0x40_0000 + 1420070400000;
    assert 0 < millis * 1000 < TWO_64;
    assert -1 % TWO_64 == TWO_64 - 1;
  }

  type Users = map<DiscordID, DiscordUser>

  /** The list after looking a user up: whom Discord knows is added. */
  function Found(users: Users, id: DiscordID, known: bool): Users {
    if id != 0 && id !in users && known then users[id := DiscordUser(JoinTime(id), 0, 0)] else users
  }

  /** Whom nobody knows shares the record of user zero. */
  function RecordOf(users: Users, id: DiscordID): DiscordID {
    if id in users then id else 0
  }

  /** Exactly when a command pays, from the state it finds. */
  predicate Pays(cfg: Config, enabled: bool, users: Users, funds: nat, id: DiscordID, now: nat, a: TakeAnswers)
    requires cfg.Valid() && 0 in users
  {
    var list := Found(users, id, a.found);
    var user := list[RecordOf(list, id)];
    && enabled && a.locked.Some? && a.genuine
    && OldEnough(cfg, now, user.joinEpochTime) && user.faucetEpochTime < now
    && Leaves(funds, Share(cfg, Unlocked(funds, a.locked.value)), id != cfg.bot, a.transfer)
  }

  /** Exactly when a transfer leaves the wallet. */
  predicate Leaves(funds: nat, amount: nat, other: bool, a: TransferAnswers) {
    && a.locked.Some? && a.validLength && 0 < amount < Unlocked(funds, a.locked.value)
    && other && a.sends && amount + a.fee <= funds
  }

  /** The record after a kept grant. */
  function Granted(cfg: Config, user: DiscordUser, now: nat, amount: nat): DiscordUser {
    user.(faucetEpochTime := (now + cfg.timeout) % TWO_64, totalSent := (user.totalSent + amount) % TWO_64)
  }

  // ------------------------------------------------ whose record

  /** In the list, or found by Discord. */
  predicate IsKnown(users: Users, id: DiscordID, found: bool) {
    id in users || (id != 0 && found)
  }

  /** What is known of a user before a command: the own record, that of someone who has
      never taken, or what all unknown users share. */
  ghost function UserBefore(users: Users, id: DiscordID, found: bool): DiscordUser
    requires 0 in users
  {
    if id in users then users[id] else if id != 0 && found then DiscordUser(JoinTime(id), 0, 0) else users[0]
  }

  /** The record after a kept grant: it must wait, has been sent more, and is as old as before. */
  ghost predicate MovedBy(cfg: Config, was: DiscordUser, now: DiscordUser, g: Grant) {
    && now.joinEpochTime == was.joinEpochTime
    && now.faucetEpochTime == (g.time + cfg.timeout) % TWO_64
    && now.totalSent == (was.totalSent + g.amount) % TWO_64
  }

  /** How a command changes the list: a known user's grant is kept on the own record and
      only there, an unknown user's on record zero and only there. */
  ghost predicate KeepsRecords(cfg: Config, before: Users, after: Users, id: DiscordID, found: bool,
                               grant: Option<Grant>)
    requires 0 in before
  {
    && before.Keys <= after.Keys <= before.Keys + (if IsKnown(before, id, found) then {id} else {})
    && (grant.Some? ==> grant.value.to == id &&
                        grant.value.record == if IsKnown(before, id, found) then id else 0)
    && (grant.Some? && IsKnown(before, id, found) ==> id in after)
    && (if grant.Some? && grant.value.recorded then
          var record := grant.value.record;
          && record in after && MovedBy(cfg, UserBefore(before, id, found), after[record], grant.value)
          && forall r :: r in before && r != record ==> after[r] == before[r]
        else
          && (forall r :: r in before ==> after[r] == before[r])
          && (id in after && id !in before ==> after[id] == UserBefore(before, id, found)))
  }

  /** A command pays exactly if the faucet is on, the wallets answer, and the user's own
      record (for someone unknown: record zero) is old enough and done waiting. */
  lemma PaysIff(cfg: Config, enabled: bool, users: Users, funds: nat, id: DiscordID, now: nat, a: TakeAnswers)
    requires cfg.Valid() && 0 in users && now < TWO_64 && cfg.minAge < TWO_64
    requires UserBefore(users, id, a.found).joinEpochTime < TWO_64
    ensures var user := UserBefore(users, id, a.found);
            Pays(cfg, enabled, users, funds, id, now, a) <==>
            && enabled && a.locked.Some? && a.genuine
            && (now >= user.joinEpochTime + cfg.minAge ||
                user.joinEpochTime - (TWO_64 - cfg.minAge) <= now < user.joinEpochTime)
            && user.faucetEpochTime < now && id != cfg.bot
            && var amount := Share(cfg, Unlocked(funds, a.locked.value));
               && a.transfer.locked.Some? && 0 < amount < Unlocked(funds, a.transfer.locked.value)
               && a.transfer.validLength && a.transfer.sends && amount + a.transfer.fee <= funds
  {
    OldEnoughIff(cfg, now, UserBefore(users, id, a.found).joinEpochTime);
    hide OldEnough, Share, Unlocked, JoinTime;
  }

  lemma TakeKeepsRecords(cfg: Config, before: Users, looked: bool, after: Users, id: DiscordID, found: bool,
                         now: nat, grant: Option<Grant>)
    requires 0 in before && (grant.Some? ==> looked)
    requires var list := if looked then Found(before, id, found) else before;
             if grant.Some? then
               var g := grant.value;
               && g.to == id && g.record == RecordOf(list, id) && g.time == now
               && after == if g.recorded then list[g.record := Granted(cfg, list[g.record], now, g.amount)] else list
             else after == list
    ensures KeepsRecords(cfg, before, after, id, found, grant)
  {
    hide JoinTime;
  }

  // ------------------------------------------------ runs

  ghost function Pow(b: nat, k: nat): nat {
    if k == 0 then 1 else Pow(b, k - 1) * b
  }

  ghost function Paid(grants: seq<Grant>): nat {
    if grants == [] then 0 else Paid(grants[..|grants| - 1]) + grants[|grants| - 1].amount
  }

  ghost function Fees(grants: seq<Grant>): nat {
    if grants == [] then 0 else Fees(grants[..|grants| - 1]) + grants[|grants| - 1].fee
  }

  ghost function Deposited(events: seq<Event>): nat {
    if events == [] then 0 else
      var last := events[|events| - 1];
      Deposited(events[..|events| - 1]) + if last.Deposit? then last.amount else 0
  }

  /** What the grants kept on a record add up to. */
  ghost function Recorded(grants: seq<Grant>, record: DiscordID): nat {
    if grants == [] then 0 else
      var last := grants[|grants| - 1];
      Recorded(grants[..|grants| - 1], record) + if last.recorded && last.record == record then last.amount else 0
  }

  /** After `k` grants at least this share of the funds is left, fees apart. */
  ghost predicate Bounded(cfg: Config, was: nat, now: nat, k: nat)
    requires cfg.Valid()
  {
    now * Pow(cfg.whole, k) >= was * Pow(cfg.whole - cfg.part, k)
  }

  lemma MoreFunds(cfg: Config, was: nat, now: nat, more: nat, k: nat)
    requires cfg.Valid() && Bounded(cfg, was, now, k) && now <= more
    ensures Bounded(cfg, was, more, k)
  {
    TimesMonotone(now, more, Pow(cfg.whole, k));
  }

  lemma TimesMonotone(a: nat, b: nat, c: nat)
    requires a <= b
    ensures a * c <= b * c
  {
    assert b * c == a * c + (b - a) * c;
  }

  /** One more grant, of at most the share of the funds. */
  lemma OneMoreGrant(cfg: Config, was: nat, now: nat, amount: nat, k: nat)
    requires cfg.Valid() && Bounded(cfg, was, now, k) && amount * cfg.whole <= now * cfg.part && amount <= now
    ensures Bounded(cfg, was, now - amount, k + 1)
  {
    var b, c, p, q := cfg.whole, cfg.whole - cfg.part, Pow(cfg.whole, k), Pow(cfg.whole - cfg.part, k);
    LeftAfterGrant(now, amount, b, cfg.part);
    TimesMonotone(now * c, (now - amount) * b, p);
    TimesMonotone(was * q, now * p, c);
    Regroup(now, c, p);
    Regroup(now - amount, b, p);
  }

  lemma LeftAfterGrant(now: nat, amount: nat, whole: nat, part: nat)
    requires amount * whole <= now * part && amount <= now && part <= whole
    ensures now * (whole - part) <= (now - amount) * whole
  {
    assert now * (whole - part) == now * whole - now * part;
    assert (now - amount) * whole == now * whole - amount * whole;
  }

  lemma Regroup(x: nat, y: nat, z: nat)
    ensures x * y * z == x * z * y == x * (z * y)
  {
  }

  predicate Same(a: Grant, b: Grant) {
    a.recorded && b.recorded && a.record == b.record
  }

  /** Two grants on one record, both kept, are more than the timeout apart. */
  ghost predicate Spaced(grants: seq<Grant>, timeout: nat) {
    forall i, j :: 0 <= i < j < |grants| && Same(grants[i], grants[j]) ==> grants[i].time + timeout < grants[j].time
  }

  /** Every kept grant has pushed its record's next time past the timeout. */
  ghost predicate Waiting(users: Users, grants: seq<Grant>, timeout: nat) {
    forall i :: 0 <= i < |grants| && grants[i].recorded ==>
                  grants[i].record in users && grants[i].time + timeout <= users[grants[i].record].faucetEpochTime
  }

  /** Each record's total is what it was plus the grants kept on it. */
  ghost predicate Totals(was: Users, now: Users, grants: seq<Grant>) {
    forall r :: r in was ==>
      r in now && now[r].totalSent % TWO_64 == (was[r].totalSent + Recorded(grants, r)) % TWO_64
  }

  lemma DepositedSnoc(events: seq<Event>, i: nat)
    requires i < |events|
    ensures Deposited(events[..i + 1]) == Deposited(events[..i]) + if events[i].Deposit? then events[i].amount else 0
  {
    assert events[..i + 1][..i] == events[..i];
  }

  lemma SumsSnoc(grants: seq<Grant>, g: Grant)
    ensures Paid(grants + [g]) == Paid(grants) + g.amount && Fees(grants + [g]) == Fees(grants) + g.fee
  {
    assert (grants + [g])[..|grants|] == grants;
  }

  lemma ShareOfFunds(cfg: Config, funds: nat, locked: nat, fees: nat)
    requires cfg.Valid()
    ensures Share(cfg, Unlocked(funds, locked)) * cfg.whole <= (funds + fees) * cfg.part
  {
    TimesMonotone(Unlocked(funds, locked), funds + fees, cfg.part);
  }

  /** How one command changes the records: they stay, but for the one it pays on,
      whose time had come and is now past the timeout. */
  ghost predicate RecordsStep(cfg: Config, before: Users, after: Users, grant: Option<Grant>) {
    && (forall r :: r in before && !KeptOn(grant, r) ==> r in after && after[r] == before[r])
    && (grant.Some? && grant.value.recorded ==>
          var g := grant.value;
          && g.record in after && after[g.record].faucetEpochTime == g.time + cfg.timeout
          && (g.record in before ==>
                && before[g.record].faucetEpochTime < g.time
                && after[g.record].totalSent == (before[g.record].totalSent + g.amount) % TWO_64))
    && (grant.Some? ==> OwnRecord(before, after, grant.value))
    && (forall k :: k in before && k != 0 ==>
                      k in after && after[k] == if grant.Some? then MovedOn(before[k], grant.value, k, cfg.timeout)
                                                else before[k])
  }

  /** A user in the list is kept on the own record, and whoever is kept on the own record
      is in the list from then on. */
  ghost predicate OwnRecord(before: Users, after: Users, g: Grant) {
    (g.to in before ==> g.record == g.to) && (g.record == g.to ==> g.to in after)
  }

  /** What one grant does to the record of user k: nothing unless it is k's own and kept. */
  ghost function MovedOn(user: DiscordUser, g: Grant, k: DiscordID, timeout: nat): DiscordUser {
    if g.recorded && g.to == k
    then DiscordUser(user.joinEpochTime, g.time + timeout, (user.totalSent + g.amount) % TWO_64)
    else user
  }

  /** The record of user k after all grants, by the kept grants to k alone. */
  ghost function RecordAfter(user: DiscordUser, grants: seq<Grant>, k: DiscordID, timeout: nat): DiscordUser {
    if grants == [] then user else
      MovedOn(RecordAfter(user, grants[..|grants| - 1], k, timeout), grants[|grants| - 1], k, timeout)
  }

  /** Whoever is in the list at the start has all grants on the own record, and so has
      everyone from the first grant on the own record on. The records are what the own
      grants made of them: nobody's grant delays anybody else. */
  ghost predicate KnownApart(was: Users, users: Users, grants: seq<Grant>, timeout: nat) {
    && was.Keys <= users.Keys
    && (forall k :: k in was && k != 0 ==> users[k] == RecordAfter(was[k], grants, k, timeout))
    && (forall i :: 0 <= i < |grants| && grants[i].to in was ==> grants[i].record == grants[i].to)
    && (forall i :: 0 <= i < |grants| && grants[i].record == grants[i].to ==> grants[i].to in users)
    && (forall i, j :: 0 <= i < j < |grants| && grants[i].to == grants[j].to && grants[i].record == grants[i].to ==>
                         grants[j].record == grants[j].to)
  }

  /** Two kept grants to one known user are more than the timeout apart. */
  ghost predicate KnownSpaced(was: Users, grants: seq<Grant>, timeout: nat) {
    forall i, j :: 0 <= i < j < |grants| && grants[i].to == grants[j].to && grants[i].recorded && grants[j].recorded &&
                   (grants[i].to in was || grants[i].record == grants[i].to) ==>
                     grants[i].time + timeout < grants[j].time
  }

  lemma KnownAreSpaced(was: Users, users: Users, grants: seq<Grant>, timeout: nat)
    requires KnownApart(was, users, grants, timeout) && Spaced(grants, timeout)
    ensures KnownSpaced(was, grants, timeout)
  {
    forall i, j | 0 <= i < j < |grants| && grants[i].to == grants[j].to && grants[i].recorded && grants[j].recorded &&
                  (grants[i].to in was || grants[i].record == grants[i].to)
      ensures grants[i].time + timeout < grants[j].time
    {
      assert Same(grants[i], grants[j]);
    }
  }

  lemma GrantKeepsApart(cfg: Config, was: Users, before: Users, after: Users, grants: seq<Grant>, g: Grant)
    requires RecordsStep(cfg, before, after, Some(g)) && KnownApart(was, before, grants, cfg.timeout)
    ensures KnownApart(was, after, grants + [g], cfg.timeout)
  {
    assert (grants + [g])[..|grants|] == grants;
    KeysStay(cfg, before, after, Some(g));
    hide MovedOn;
  }

  lemma KeysStay(cfg: Config, before: Users, after: Users, grant: Option<Grant>)
    requires RecordsStep(cfg, before, after, grant)
    ensures before.Keys <= after.Keys
  {
  }

  predicate KeptOn(grant: Option<Grant>, r: DiscordID) {
    grant.Some? && grant.value.recorded && grant.value.record == r
  }

  lemma UsersStep(cfg: Config, before: Users, after: Users, id: DiscordID, found: bool, grant: Option<Grant>)
    requires 0 in before && KeepsRecords(cfg, before, after, id, found, grant)
    requires grant.Some? ==> grant.value.time + cfg.timeout < TWO_64 &&
                             UserBefore(before, id, found).faucetEpochTime < grant.value.time
    ensures RecordsStep(cfg, before, after, grant)
  {
    hide JoinTime;
  }

  lemma NothingKept(cfg: Config, was: Users, before: Users, after: Users, grants: seq<Grant>)
    requires RecordsStep(cfg, before, after, None)
    requires Waiting(before, grants, cfg.timeout) && Totals(was, before, grants)
    ensures Waiting(after, grants, cfg.timeout) && Totals(was, after, grants)
  {
  }

  lemma NothingKeepsApart(cfg: Config, was: Users, before: Users, after: Users, grants: seq<Grant>)
    requires RecordsStep(cfg, before, after, None) && KnownApart(was, before, grants, cfg.timeout)
    ensures KnownApart(was, after, grants, cfg.timeout)
  {
    KeysStay(cfg, before, after, None);
  }

  lemma GrantKept(cfg: Config, was: Users, before: Users, after: Users, grants: seq<Grant>, g: Grant)
    requires RecordsStep(cfg, before, after, Some(g))
    requires Spaced(grants, cfg.timeout) && Waiting(before, grants, cfg.timeout) && Totals(was, before, grants)
    ensures Spaced(grants + [g], cfg.timeout) && Waiting(after, grants + [g], cfg.timeout)
    ensures Totals(was, after, grants + [g])
  {
    GrantTotals(cfg, was, before, after, grants, g);
    hide Totals, Recorded;
    GrantSpaced(cfg, before, after, grants, g);
    hide Spaced;
    var more := grants + [g];
    forall i | 0 <= i < |more| && more[i].recorded
      ensures more[i].record in after && more[i].time + cfg.timeout <= after[more[i].record].faucetEpochTime
    {
      if i < |grants| {
        assert grants[i].record in before;
      }
    }
  }

  lemma GrantSpaced(cfg: Config, before: Users, after: Users, grants: seq<Grant>, g: Grant)
    requires RecordsStep(cfg, before, after, Some(g))
    requires Spaced(grants, cfg.timeout) && Waiting(before, grants, cfg.timeout)
    ensures Spaced(grants + [g], cfg.timeout)
  {
    var more := grants + [g];
    forall i, j | 0 <= i < j < |more| && Same(more[i], more[j]) ensures more[i].time + cfg.timeout < more[j].time {
      if j < |grants| {
        assert Same(grants[i], grants[j]);
      } else {
        assert grants[i].record in before;
      }
    }
  }

  lemma GrantTotals(cfg: Config, was: Users, before: Users, after: Users, grants: seq<Grant>, g: Grant)
    requires RecordsStep(cfg, before, after, Some(g)) && Totals(was, before, grants)
    ensures Totals(was, after, grants + [g])
  {
    assert (grants + [g])[..|grants|] == grants;
    forall r | r in was
      ensures r in after && after[r].totalSent % TWO_64 == (was[r].totalSent + Recorded(grants + [g], r)) % TWO_64
    {
      assert r in before;
      if KeptOn(Some(g), r) {
        AddWrapped(before[r].totalSent, was[r].totalSent + Recorded(grants, r), g.amount);
      }
    }
  }

  lemma AddWrapped(a: nat, b: nat, c: nat)
    requires a % TWO_64 == b % TWO_64
    ensures (a + c) % TWO_64 % TWO_64 == (b + c) % TWO_64
  {
    var qa, qb, r := a / TWO_64, b / TWO_64, a % TWO_64;
    assert a + c == qa * TWO_64 + (r + c) && b + c == qb * TWO_64 + (r + c);
  }

  /** What holds all along a run. */
  ghost predicate InOrder(cfg: Config, wasUsers: Users, wasFunds: nat, users: Users, funds: nat, grants: seq<Grant>,
                          deposited: nat)
    requires cfg.Valid()
  {
    && Bounded(cfg, wasFunds, funds + Fees(grants), |grants|)
    && funds + Paid(grants) + Fees(grants) == wasFunds + deposited
    && Spaced(grants, cfg.timeout) && Waiting(users, grants, cfg.timeout) && Totals(wasUsers, users, grants)
    && KnownApart(wasUsers, users, grants, cfg.timeout)
  }

  lemma GrantInOrder(cfg: Config, wasUsers: Users, wasFunds: nat, before: Users, rich: nat, users: Users, funds: nat,
                     grants: seq<Grant>, deposited: nat, g: Grant, locked: nat)
    requires cfg.Valid() && InOrder(cfg, wasUsers, wasFunds, before, rich, grants, deposited)
    requires RecordsStep(cfg, before, users, Some(g))
    requires g.amount == Share(cfg, Unlocked(rich, locked)) && funds + g.amount + g.fee == rich
    ensures InOrder(cfg, wasUsers, wasFunds, users, funds, grants + [g], deposited)
  {
    hide Bounded, Spaced, Waiting, Totals, Paid, Fees, RecordsStep, KnownApart;
    ShareOfFunds(cfg, rich, locked, Fees(grants));
    OneMoreGrant(cfg, wasFunds, rich + Fees(grants), g.amount, |grants|);
    SumsSnoc(grants, g);
    GrantKept(cfg, wasUsers, before, users, grants, g);
    GrantKeepsApart(cfg, wasUsers, before, users, grants, g);
  }

  lemma NothingInOrder(cfg: Config, wasUsers: Users, wasFunds: nat, before: Users, users: Users, funds: nat,
                       grants: seq<Grant>, deposited: nat)
    requires cfg.Valid() && InOrder(cfg, wasUsers, wasFunds, before, funds, grants, deposited)
    requires RecordsStep(cfg, before, users, None)
    ensures InOrder(cfg, wasUsers, wasFunds, users, funds, grants, deposited)
  {
    hide Bounded, Spaced, Waiting, Totals, Paid, Fees, RecordsStep, KnownApart;
    NothingKept(cfg, wasUsers, before, users, grants);
    NothingKeepsApart(cfg, wasUsers, before, users, grants);
  }

  // ------------------------------------------------ the command

  class Faucet {
    const cfg: Config
    var enabled: bool
    var users: Users
    var funds: nat

    constructor (config: Config, list: Users, unknown: DiscordUser, balance: nat)
      ensures cfg == config && enabled && users == list[0 := unknown] && funds == balance
    {
      cfg, enabled, users, funds := config, true, list[0 := unknown], balance;
    }

    /** `transferMoneyToAddress` out of the bot's wallet: its guards in their order. */
    method TransferMoneyToAddress(amount: nat, to: DiscordID, a: TransferAnswers) returns (refused: Option<Error>)
      modifies this`funds
      ensures refused.None? <==> Leaves(old(funds), amount, to != cfg.bot, a)
      ensures funds == if refused.None? then old(funds) - amount - a.fee else old(funds)
    {
      if a.locked.None? {
        return Some(ResyncError);
      }
      var unlockedBalance := Unlocked(funds, a.locked.value);
      refused := CheckAddressTransfer(amount, unlockedBalance, AddressOf(to), AddressOf(cfg.bot), a.validLength);
      if refused.Some? {
        return;
      }
      if !a.sends || amount + a.fee > funds {
        return Some(TransferError);
      }
      funds := funds - amount - a.fee;
      return None;
    }

    /** `take`. A note that fails leaves the grant off the record. */
    method Take(id: DiscordID, now: nat, a: TakeAnswers) returns (grant: Option<Grant>)
      requires cfg.Valid() && 0 in users
      modifies this`users, this`funds
      ensures 0 in users && KeepsRecords(cfg, old(users), users, id, a.found, grant)
      ensures grant.Some? <==> Pays(cfg, enabled, old(users), old(funds), id, now, a)
      ensures !enabled || a.locked.None? ==> users == old(users)
      ensures enabled && a.locked.Some? && id != 0 && a.found ==> id in users
      ensures if grant.Some? then
                var g := grant.value;
                && g == Grant(id, g.record, now, Share(cfg, Unlocked(old(funds), a.locked.value)),
                              a.transfer.fee, a.transfer.note)
                && UserBefore(old(users), id, a.found).faucetEpochTime < now
                && funds + g.amount + g.fee == old(funds)
              else funds == old(funds)
    {
      ghost var before := users;
      hide OldEnough, JoinTime, Granted, KeepsRecords;
      if !enabled || a.locked.None? {
        TakeKeepsRecords(cfg, before, false, users, id, a.found, now, None);
        return None;
      }
      users := Found(users, id, a.found);
      TakeKeepsRecords(cfg, before, true, users, id, a.found, now, None);
      var record := RecordOf(users, id);
      var user := users[record];
      if !a.genuine || !OldEnough(cfg, now, user.joinEpochTime) || now <= user.faucetEpochTime {
        return None;
      }
      var unlockedBalance := Unlocked(funds, a.locked.value);
      if unlockedBalance == 0 {
        return None;
      }
      var amount := Share(cfg, unlockedBalance);
      var refused := TransferMoneyToAddress(amount, id, a.transfer);
      if refused.Some? {
        return None;
      }
      if a.transfer.note {
        users := users[record := Granted(cfg, user, now, amount)];
      }
      grant := Some(Grant(id, record, now, amount, a.transfer.fee, a.transfer.note));
      TakeKeepsRecords(cfg, before, true, users, id, a.found, now, grant);
    }

    /** One event of a run; what is paid is appended to the grants so far. */
    method OnEvent(e: Event, grants: seq<Grant>, ghost wasUsers: Users, ghost wasFunds: nat, ghost deposited: nat)
      returns (more: seq<Grant>)
      requires cfg.Valid() && 0 in users && (e.Take? ==> e.now + cfg.timeout < TWO_64)
      requires InOrder(cfg, wasUsers, wasFunds, users, funds, grants, deposited)
      modifies this
      ensures 0 in users
      ensures InOrder(cfg, wasUsers, wasFunds, users, funds, more, deposited + if e.Deposit? then e.amount else 0)
    {
      ghost var before, rich := users, funds;
      more := grants;
      match e {
        case Take(id, now, a) =>
          hide InOrder, Pays, KeepsRecords, UserBefore;
          var grant := Take(id, now, a);
          UsersStep(cfg, before, users, id, a.found, grant);
          if grant.Some? {
            GrantInOrder(cfg, wasUsers, wasFunds, before, rich, users, funds, grants, deposited,
                         grant.value, a.locked.value);
            more := grants + [grant.value];
          } else {
            NothingInOrder(cfg, wasUsers, wasFunds, before, users, funds, grants, deposited);
          }
        case Deposit(amount) =>
          hide Bounded, Spaced, Waiting, Totals, KnownApart;
          MoreFunds(cfg, wasFunds, funds + Fees(grants), funds + amount + Fees(grants), |grants|);
          funds := funds + amount;
        case Toggle =>
          enabled := !enabled;
      }
    }

    /** Any run of commands, deposits and switches. */
    method Run(events: seq<Event>) returns (grants: seq<Grant>)
      requires cfg.Valid() && 0 in users
      requires forall i :: 0 <= i < |events| && events[i].Take? ==> events[i].now + cfg.timeout < TWO_64
      modifies this
      ensures Bounded(cfg, old(funds), funds + Fees(grants), |grants|)
      ensures funds + Paid(grants) + Fees(grants) == old(funds) + Deposited(events)
      ensures Spaced(grants, cfg.timeout)
      ensures Totals(old(users), users, grants)
      ensures KnownApart(old(users), users, grants, cfg.timeout) && KnownSpaced(old(users), grants, cfg.timeout)
    {
      grants := [];
      for i := 0 to |events|
        invariant 0 in users && InOrder(cfg, old(users), old(funds), users, funds, grants, Deposited(events[..i]))
      {
        hide InOrder;
        grants := OnEvent(events[i], grants, old(users), old(funds), Deposited(events[..i]));
        DepositedSnoc(events, i);
      }
      assert events[..|events|] == events;
      KnownAreSpaced(old(users), users, grants, cfg.timeout);
    }
  }
}
