/**
 The native balances of one chain, with the existential-deposit behaviour of the
 balances pallet: an account left below the deposit is reaped and its remainder
 destroyed, and a deposit below it into a missing account is lost.
 */
module Ledger {
  import opened Prelude
  import opened Locations

  type Account = seq<byte>

  datatype Ledger = Ledger(accounts: map<Account, nat>, dust: nat)

  function Balance(l: Ledger, who: Account): nat {
    if who in l.accounts then l.accounts[who] else 0
  }

  function Write(ed: nat, l: Ledger, who: Account, free: nat): Ledger {
    if free < ed then Ledger(l.accounts - {who}, l.dust + free)
    else Ledger(l.accounts[who := free], l.dust)
  }

  function Withdraw(ed: nat, l: Ledger, who: Account, amount: nat): Option<Ledger> {
    if amount == 0 then Some(l)
    else if Balance(l, who) < amount then None
    else Some(Write(ed, l, who, Balance(l, who) - amount))
  }

  function Deposit(ed: nat, l: Ledger, who: Account, amount: nat): Ledger {
    if amount == 0 then l
    else if who !in l.accounts && amount < ed then l.(dust := l.dust + amount)
    else Write(ed, l, who, Balance(l, who) + amount)
  }

  function Transfer(ed: nat, l: Ledger, from: Account, to: Account, amount: nat): Option<Ledger> {
    if amount == 0 || from == to then Some(l)
    else if Balance(l, from) < amount || Balance(l, to) + amount < ed then None
    else
      var debited := Write(ed, l, from, Balance(l, from) - amount);
      Some(Write(ed, debited, to, Balance(l, to) + amount))
  }

  // ---------------------------------------------------------------------------
  // Totals
  // ---------------------------------------------------------------------------

  ghost function SumOf(m: map<Account, nat>): nat {
    if m == map[] then 0
    else var k :| k in m; m[k] + SumOf(m - {k})
  }

  ghost function Total(l: Ledger): nat {
    SumOf(l.accounts) + l.dust
  }

  lemma {:induction false} SumWithout(m: map<Account, nat>, k: Account)
    requires k in m
    ensures SumOf(m) == m[k] + SumOf(m - {k})
    decreases m
  {
    var j :| j in m && SumOf(m) == m[j] + SumOf(m - {j});
    if j != k {
      SumWithout(m - {j}, k);
      SumWithout(m - {k}, j);
      assert m - {j} - {k} == m - {k} - {j};
    }
  }

  lemma SumUpdated(m: map<Account, nat>, k: Account, v: nat)
    ensures SumOf(m[k := v]) == SumOf(m - {k}) + v
  {
    SumWithout(m[k := v], k);
    assert m[k := v] - {k} == m - {k};
  }

  lemma WriteTotal(ed: nat, l: Ledger, who: Account, free: nat)
    ensures Total(Write(ed, l, who, free)) + Balance(l, who) == Total(l) + free
  {
    SumUpdated(l.accounts, who, free);
    if who in l.accounts {
      SumWithout(l.accounts, who);
    } else {
      assert l.accounts - {who} == l.accounts;
    }
  }

  /** Every ledger operation moves exactly its amount, whatever is reaped on the way. */
  lemma LedgerConserves(ed: nat, l: Ledger, from: Account, to: Account, amount: nat)
    ensures Withdraw(ed, l, from, amount).Some? ==> Total(Withdraw(ed, l, from, amount).value) + amount == Total(l)
    ensures Total(Deposit(ed, l, to, amount)) == Total(l) + amount
    ensures Transfer(ed, l, from, to, amount).Some? ==> Total(Transfer(ed, l, from, to, amount).value) == Total(l)
  {
    WriteTotal(ed, l, to, Balance(l, to) + amount);
    if Balance(l, from) >= amount {
      WriteTotal(ed, l, from, Balance(l, from) - amount);
      var debited := Write(ed, l, from, Balance(l, from) - amount);
      WriteTotal(ed, debited, to, Balance(l, to) + amount);
    }
  }

  /** Below the deposit an account does not live on; what it had is dust. */
  function Lives(ed: nat, free: nat): nat {
    if free < ed then 0 else free
  }

  lemma WriteEffect(ed: nat, l: Ledger, who: Account, free: nat)
    ensures var d := Write(ed, l, who, free);
            && Balance(d, who) == Lives(ed, free)
            && d.dust == l.dust + free - Lives(ed, free)
            && (who in d.accounts <==> free >= ed)
            && forall other :: other != who ==>
                 Balance(d, other) == Balance(l, other) && (other in d.accounts <==> other in l.accounts)
  {
  }

  /** When a withdrawal goes through, and what each of the two single-account operations leaves. */
  lemma OneAccount(ed: nat, l: Ledger, who: Account, amount: nat)
    requires amount > 0
    ensures var w := Withdraw(ed, l, who, amount);
            && (w.Some? <==> Balance(l, who) >= amount)
            && (w.Some? ==>
                  && Balance(w.value, who) == Lives(ed, Balance(l, who) - amount)
                  && (forall other :: other != who ==> Balance(w.value, other) == Balance(l, other)))
    ensures var d := Deposit(ed, l, who, amount);
            && Balance(d, who) == Lives(ed, Balance(l, who) + amount)
            && (forall other :: other != who ==> Balance(d, other) == Balance(l, other))
  {
  }

  /** When a transfer between two accounts goes through, and that it never loses any of its amount. */
  lemma TwoAccounts(ed: nat, l: Ledger, from: Account, to: Account, amount: nat)
    requires from != to && amount > 0
    ensures var t := Transfer(ed, l, from, to, amount);
            && (t.Some? <==> Balance(l, from) >= amount && Balance(l, to) + amount >= ed)
            && (t.Some? ==>
                  && Balance(t.value, to) == Balance(l, to) + amount
                  && Balance(t.value, from) == Lives(ed, Balance(l, from) - amount)
                  && (forall other :: other !in {from, to} ==> Balance(t.value, other) == Balance(l, other)))
  {
  }

  /** Nothing to move, or nobody to move it to: every operation succeeds and changes nothing. */
  lemma NothingToMove(ed: nat, l: Ledger, from: Account, to: Account, amount: nat)
    ensures Withdraw(ed, l, from, 0) == Some(l) && Deposit(ed, l, to, 0) == l
    ensures Transfer(ed, l, from, to, 0) == Some(l) && Transfer(ed, l, from, from, amount) == Some(l)
  {
  }

  // ---------------------------------------------------------------------------
  // LocationToAccountId
  // ---------------------------------------------------------------------------

  function LittleEndian4(n: ParaId): seq<byte> {
    var n1, n2, n3 := n / 256, n / 256 / 256, n / 256 / 256 / 256;
    [(n % 256) as byte, (n1 % 256) as byte, (n2 % 256) as byte, n3 as byte]
  }

  lemma LittleEndianIsInjective(p: ParaId, q: ParaId)
    requires LittleEndian4(p) == LittleEndian4(q)
    ensures p == q
  {
    var bytes := LittleEndian4(p);
    assert bytes[3] == LittleEndian4(q)[3] && bytes[2] == LittleEndian4(q)[2];
    assert p / 256 / 256 == q / 256 / 256;
    assert bytes[1] == LittleEndian4(q)[1];
    assert p / 256 == q / 256;
    assert bytes[0] == LittleEndian4(q)[0];
  }

  /** The ASCII text `sibl`, the id in little-endian order, then zeros. */
  function SovereignAccount(id: ParaId): Account {
    [115, 105, 98, 108] + LittleEndian4(id) + Padding(0, 24)
  }

  /** The ASCII text `Parent`, then zeros. */
  function ParentAccount(): Account {
    [80, 97, 114, 101, 110, 116] + Padding(0, 26)
  }

  function AccountOf(l: Location): Option<Account> {
    if l.parents == 1 && l.interior == [] then Some(ParentAccount())
    else if l.parents == 1 && |l.interior| == 1 && l.interior[0].Parachain? then
      Some(SovereignAccount(l.interior[0].id))
    else if l.parents == 0 && |l.interior| == 1 && l.interior[0].AccountId32?
            && (l.interior[0].network == None || l.interior[0].network == Some(Kusama)) then
      Some(l.interior[0].account)
    else None
  }

  lemma SovereignAccountsAreDistinct(p: ParaId, q: ParaId)
    ensures SovereignAccount(p) == SovereignAccount(q) ==> p == q
    ensures SovereignAccount(p) != ParentAccount()
  {
    assert SovereignAccount(p)[0] == 115 && ParentAccount()[0] == 80;
    if SovereignAccount(p) == SovereignAccount(q) {
      assert LittleEndian4(p) == SovereignAccount(p)[4..8];
      assert LittleEndian4(q) == SovereignAccount(q)[4..8];
      LittleEndianIsInjective(p, q);
    }
  }

  /** The four bytes spell the id in base 256, least significant first. */
  lemma LittleEndianSpells(n: ParaId)
    ensures var b := LittleEndian4(n);
            |b| == 4 && n == b[0] as int + 0x100 * b[1] as int + 0x1_0000 * b[2] as int + 0x100_0000 * b[3] as int
  {
  }

  /** The layouts of the two derived accounts, as text, id and zeros. */
  lemma AccountLayouts(id: ParaId)
    ensures var s := SovereignAccount(id);
            && |s| == 32 && (forall i :: 0 <= i < 4 ==> s[i] as char == "sibl"[i])
            && s[4..8] == LittleEndian4(id) && (forall i :: 8 <= i < 32 ==> s[i] == 0)
    ensures var r := ParentAccount();
            |r| == 32 && (forall i :: 0 <= i < 6 ==> r[i] as char == "Parent"[i]) && (forall i :: 6 <= i < 32 ==> r[i] == 0)
  {
  }

  /** The three kinds of locations that have an account here, and no other. */
  lemma WhoHasAnAccount(l: Location, who: Account)
    ensures AccountOf(l) == Some(who) <==>
              || (l == PARENT && who == ParentAccount())
              || (exists id: ParaId :: l == Sibling(id) && who == SovereignAccount(id))
              || LocalSigner(l, who)
  {
    if AccountOf(l) == Some(who) && l != PARENT && l.parents == 1 {
      assert l == Sibling(l.interior[0].id);
    }
  }

  function Descend(origin: Location, suffix: seq<Junction>): Location {
    Location(origin.parents, origin.interior + suffix)
  }

  /** An origin is clear of an account when no descent below it can act as that account. */
  ghost predicate ClearOf(origin: Location, who: Account) {
    forall suffix :: AccountOf(Descend(origin, suffix)) != Some(who)
  }

  predicate LocalSigner(origin: Location, who: Account) {
    && origin.parents == 0 && |origin.interior| == 1 && origin.interior[0].AccountId32?
    && origin.interior[0].account == who
    && (origin.interior[0].network == None || origin.interior[0].network == Some(Kusama))
  }

  /**
   Who can act as a sibling's sovereign account: the sibling itself, the relay
   chain (by descending into the sibling), this chain's own root location, and a
   local signer holding that very account id.  Nobody else, at any depth.
   */
  lemma WhoReachesSovereign(origin: Location, id: ParaId)
    ensures !ClearOf(origin, SovereignAccount(id)) <==>
            origin == Sibling(id) || origin == PARENT || origin == HERE
            || LocalSigner(origin, SovereignAccount(id))
  {
    var who := SovereignAccount(id);
    assert Descend(origin, []) == origin;
    if origin == PARENT {
      assert AccountOf(Descend(origin, [Parachain(id)])) == Some(who);
    } else if origin == HERE {
      assert AccountOf(Descend(origin, [AccountId32(None, who)])) == Some(who);
    } else if origin == Sibling(id) || LocalSigner(origin, who) {
      assert AccountOf(Descend(origin, [])) == Some(who);
    } else {
      forall suffix ensures AccountOf(Descend(origin, suffix)) != Some(who) {
        SovereignAccountsAreDistinct(id, id);
        if AccountOf(Descend(origin, suffix)) == Some(who) {
          assert suffix == [];
          assert Descend(origin, suffix) == origin;
          if origin.parents == 1 {
            SovereignAccountsAreDistinct(id, origin.interior[0].id);
          }
        }
      }
    }
  }

  lemma ClearOfDescends(origin: Location, suffix: seq<Junction>, who: Account)
    requires ClearOf(origin, who)
    ensures ClearOf(Descend(origin, suffix), who)
  {
    forall more ensures AccountOf(Descend(Descend(origin, suffix), more)) != Some(who) {
      assert Descend(Descend(origin, suffix), more) == Descend(origin, suffix + more);
    }
  }
}
