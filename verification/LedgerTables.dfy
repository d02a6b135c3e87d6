/** The ledger as it is stored: journal, account and entry tables, written by
    inserts that step aside on a conflict (services/core/cmd/api/ledger.go,
    services/core/internal/store/ledger.sql.go). */
module LedgerTables {
  import opened Common
  import opened Ledger

  /** A journal row. Its digest stands for the hashed lines: two journals have
      the same digest exactly when they have the same lines. */
  datatype JournalRow = JournalRow(source: Source, digest: seq<Line>)

  datatype Entry = Entry(journal: nat, account: nat, side: Side, amount: int)

  /** The lines that the entries of one journal spell out, in order. */
  function LinesOf(entries: seq<Entry>, accounts: seq<Account>, journal: nat): seq<Line>
    requires forall e | e in entries :: e.account < |accounts|
  {
    if entries == [] then []
    else
      var last := entries[|entries| - 1];
      LinesOf(entries[..|entries| - 1], accounts, journal)
      + (if last.journal == journal then [Line(accounts[last.account], last.side, last.amount)] else [])
  }

  /** What all entries of one account add up to, debits positive. */
  function EntryTotal(entries: seq<Entry>, account: nat): int {
    if entries == [] then 0
    else
      var last := entries[|entries| - 1];
      EntryTotal(entries[..|entries| - 1], account)
      + (if last.account != account then 0 else if last.side == Debit then last.amount else -last.amount)
  }

  function Abstract(rows: seq<JournalRow>): (r: seq<Journal>)
    ensures |r| == |rows| && forall i | 0 <= i < |rows| :: r[i] == Journal(rows[i].source, rows[i].digest)
  {
    seq(|rows|, i requires 0 <= i < |rows| => Journal(rows[i].source, rows[i].digest))
  }

  /** Totals never shrink while the amounts are positive. */
  lemma {:induction false} PrefixTotal(side: Side, lines: seq<Line>, n: nat)
    requires n <= |lines| && forall i | 0 <= i < |lines| :: lines[i].amount > 0
    ensures 0 <= Sum(SideTotal(side), lines[..n]) <= Sum(SideTotal(side), lines)
  {
    var m := |lines| - 1;
    if n == |lines| {
      assert lines[..n] == lines;
      SumNonNegative(SideTotal(side), lines);
    } else {
      PrefixTotal(side, lines[..m], n);
      assert lines[..m][..n] == lines[..n];
    }
  }

  lemma TotalStep(side: Side, lines: seq<Line>, n: nat)
    requires n < |lines|
    ensures Sum(SideTotal(side), lines[..n + 1]) == Sum(SideTotal(side), lines[..n]) + SideTotal(side)(lines[n])
  {
    SumSnoc(SideTotal(side), lines[..n], lines[n]);
    assert lines[..n] + [lines[n]] == lines[..n + 1];
  }

  /** Entries only ever name accounts that exist, so a longer account table
      spells out the same lines. */
  lemma {:induction false} SameLines(entries: seq<Entry>, accounts: seq<Account>, more: seq<Account>, journal: nat)
    requires (forall e | e in entries :: e.account < |accounts|) && accounts <= more
    ensures LinesOf(entries, more, journal) == LinesOf(entries, accounts, journal)
  {
    if entries != [] {
      SameLines(entries[..|entries| - 1], accounts, more, journal);
    }
  }

  lemma NextEntry(entries: seq<Entry>, accounts: seq<Account>, e: Entry, journal: nat)
    requires (forall x | x in entries :: x.account < |accounts|) && e.account < |accounts|
    ensures LinesOf(entries + [e], accounts, journal)
         == LinesOf(entries, accounts, journal)
            + (if e.journal == journal then [Line(accounts[e.account], e.side, e.amount)] else [])
  {}

  lemma {:induction false} NoLines(entries: seq<Entry>, accounts: seq<Account>, journal: nat)
    requires forall e | e in entries :: e.account < |accounts| && e.journal < journal
    ensures LinesOf(entries, accounts, journal) == []
  {
    if entries != [] {
      NoLines(entries[..|entries| - 1], accounts, journal);
    }
  }

  /** The tables hold together: one row per source and per account identity,
      and every journal's entries spell out the lines of its digest. */
  ghost predicate Consistent(journals: seq<JournalRow>, accounts: seq<Account>, entries: seq<Entry>) {
    && (forall i, j | 0 <= i < j < |accounts| :: accounts[i] != accounts[j])
    && (forall e | e in entries :: e.account < |accounts| && e.journal < |journals|)
    && (forall j | 0 <= j < |journals| :: LinesOf(entries, accounts, j) == journals[j].digest)
    && Sound(Abstract(journals))
  }

  // ---- the balance read from the entry table is the balance of the ledger ----

  /** Lines of the journals from k on, as far as they touch one account. */
  ghost function FromEntries(entries: seq<Entry>, accounts: seq<Account>, account: Account, n: nat): int
    requires forall e | e in entries :: e.account < |accounts|
  {
    if n == 0 then 0
    else FromEntries(entries, accounts, account, n - 1) + Effect(LinesOf(entries, accounts, n - 1), account)
  }

  /** Adding one entry adds it to exactly one journal's lines. */
  lemma {:induction false} OneMoreEntry(entries: seq<Entry>, accounts: seq<Account>, e: Entry, account: Account, n: nat)
    requires (forall x | x in entries :: x.account < |accounts|) && e.account < |accounts|
    ensures FromEntries(entries + [e], accounts, account, n)
         == FromEntries(entries, accounts, account, n)
            + (if e.journal < n then On(account)(Line(accounts[e.account], e.side, e.amount)) else 0)
  {
    if n > 0 {
      OneMoreEntry(entries, accounts, e, account, n - 1);
      NextEntry(entries, accounts, e, n - 1);
      SumSnoc(On(account), LinesOf(entries, accounts, n - 1), Line(accounts[e.account], e.side, e.amount));
      assert LinesOf(entries, accounts, n - 1) + [] == LinesOf(entries, accounts, n - 1);
    }
  }

  lemma {:induction false} NothingYet(accounts: seq<Account>, account: Account, n: nat)
    ensures FromEntries([], accounts, account, n) == 0
  {
    if n > 0 {
      NothingYet(accounts, account, n - 1);
    }
  }

  lemma {:induction false} EntryTotalIs(entries: seq<Entry>, accounts: seq<Account>, id: nat, n: nat)
    requires id < |accounts| && (forall i, j | 0 <= i < j < |accounts| :: accounts[i] != accounts[j])
    requires forall e | e in entries :: e.account < |accounts| && e.journal < n
    ensures EntryTotal(entries, id) == FromEntries(entries, accounts, accounts[id], n)
  {
    if entries == [] {
      NothingYet(accounts, accounts[id], n);
    } else {
      var init, last := entries[..|entries| - 1], entries[|entries| - 1];
      EntryTotalIs(init, accounts, id, n);
      OneMoreEntry(init, accounts, last, accounts[id], n);
      assert init + [last] == entries;
      assert accounts[last.account] == accounts[id] <==> last.account == id;
    }
  }

  lemma {:induction false} FromJournals(journals: seq<JournalRow>, accounts: seq<Account>, entries: seq<Entry>, account: Account, n: nat)
    requires forall e | e in entries :: e.account < |accounts|
    requires forall j | 0 <= j < |journals| :: LinesOf(entries, accounts, j) == journals[j].digest
    requires n <= |journals|
    ensures FromEntries(entries, accounts, account, n) == Balance(Abstract(journals)[..n], account)
  {
    hide Effect, LinesOf;
    if n > 0 {
      FromJournals(journals, accounts, entries, account, n - 1);
      var js := Abstract(journals);
      SumSnoc(JournalOn(account), js[..n - 1], js[n - 1]);
      assert js[..n - 1] + [js[n - 1]] == js[..n];
    }
  }

  /** Summing one account's rows of the entry table gives its ledger balance. */
  lemma BalanceFromEntries(journals: seq<JournalRow>, accounts: seq<Account>, entries: seq<Entry>, id: nat)
    requires Consistent(journals, accounts, entries) && id < |accounts|
    ensures EntryTotal(entries, id) == Balance(Abstract(journals), accounts[id])
  {
    EntryTotalIs(entries, accounts, id, |journals|);
    FromJournals(journals, accounts, entries, accounts[id], |journals|);
    assert Abstract(journals)[..|journals|] == Abstract(journals);
  }

  // ---- posting ----

  class Tables {
    var journals: seq<JournalRow>
    var accounts: seq<Account>
    var entries: seq<Entry>

    ghost predicate Valid()
      reads this
    {
      Consistent(journals, accounts, entries)
    }

    function Journals(): seq<Journal>
      reads this
    {
      Abstract(journals)
    }

    constructor ()
      ensures Valid() && Journals() == []
    {
      journals, accounts, entries := [], [], [];
    }

    /** Adds up both sides, refusing what must not be written. */
    method Balanced(lines: seq<Line>) returns (ok: bool)
      ensures ok <==> Postable(lines)
    {
      if |lines| < 2 {
        return false;
      }
      var debit, credit := 0, 0;
      for i := 0 to |lines|
        invariant debit == Sum(SideTotal(Debit), lines[..i]) <= MAX_INT64
        invariant credit == Sum(SideTotal(Credit), lines[..i]) <= MAX_INT64
        invariant forall k | 0 <= k < i :: lines[k].amount > 0
      {
        var line := lines[i];
        if line.amount <= 0 {
          return false;
        }
        TotalStep(Debit, lines, i);
        TotalStep(Credit, lines, i);
        if Postable(lines) {
          PrefixTotal(Debit, lines, i + 1);
          PrefixTotal(Credit, lines, i + 1);
        }
        if line.side == Debit {
          if debit > MAX_INT64 - line.amount {
            return false;
          }
          debit := debit + line.amount;
        } else {
          if credit > MAX_INT64 - line.amount {
            return false;
          }
          credit := credit + line.amount;
        }
      }
      assert lines[..|lines|] == lines;
      return debit == credit;
    }

    /** The journal already stored under a source, if any. */
    method FindJournal(source: Source) returns (id: Option<nat>)
      ensures id.Some? ==> id.value < |journals| && journals[id.value].source == source
      ensures id.None? ==> forall j | 0 <= j < |journals| :: journals[j].source != source
    {
      for j := 0 to |journals|
        invariant forall k | 0 <= k < j :: journals[k].source != source
      {
        if journals[j].source == source {
          return Some(j);
        }
      }
      return None;
    }

    /** Inserts the account unless its identity is already taken. */
    method AccountId(account: Account) returns (id: nat)
      requires forall i, j | 0 <= i < j < |accounts| :: accounts[i] != accounts[j]
      modifies this`accounts
      ensures old(accounts) <= accounts && id < |accounts| && accounts[id] == account
      ensures forall i, j | 0 <= i < j < |accounts| :: accounts[i] != accounts[j]
    {
      for i := 0 to |accounts|
        invariant accounts == old(accounts)
        invariant forall k | 0 <= k < i :: accounts[k] != account
      {
        if accounts[i] == account {
          return i;
        }
      }
      accounts := accounts + [account];
      return |accounts| - 1;
    }

    /** postLedgerJournal: a repeat of the same journal answers with the stored
        one, another journal under a used source is refused. */
    method Record(source: Source, lines: seq<Line>) returns (id: Option<nat>)
      requires Valid()
      modifies this
      ensures Valid()
      ensures Post(old(Journals()), source, lines) == if id.Some? then Some(Journals()) else None
      ensures id.Some? ==> id.value < |Journals()| && Journals()[id.value] == Journal(source, lines)
      ensures id.None? ==> journals == old(journals) && accounts == old(accounts) && entries == old(entries)
    {
      var ok := Balanced(lines);
      if !ok {
        return None;
      }
      var existing := FindJournal(source);
      if existing.Some? {
        assert Journals()[existing.value].source == source;
        if journals[existing.value].digest != lines {
          assert Journal(source, lines) !in Journals();
          return None;
        }
        assert Journals()[existing.value] == Journal(source, lines);
        return existing;
      }
      assert !Posted(Journals(), source);
      WriteJournal(source, lines);
      return Some(|journals| - 1);
    }

    /** One entry of journal number id, on the account of its line. */
    method WriteEntry(id: nat, line: Line)
      requires forall a, b | 0 <= a < b < |accounts| :: accounts[a] != accounts[b]
      requires forall e | e in entries :: e.account < |accounts| && e.journal <= id
      modifies this`accounts, this`entries
      ensures forall a, b | 0 <= a < b < |accounts| :: accounts[a] != accounts[b]
      ensures forall e | e in entries :: e.account < |accounts| && e.journal <= id
      ensures forall j | 0 <= j <= id ::
        LinesOf(entries, accounts, j) == LinesOf(old(entries), old(accounts), j) + (if j == id then [line] else [])
    {
      var account := AccountId(line.account);
      var entry := Entry(id, account, line.side, line.amount);
      forall j | 0 <= j <= id
        ensures LinesOf(entries + [entry], accounts, j) == LinesOf(entries, old(accounts), j) + (if j == id then [line] else [])
      {
        SameLines(entries, old(accounts), accounts, j);
        NextEntry(entries, accounts, entry, j);
      }
      entries := entries + [entry];
    }

    /** Writes a new journal and one entry per line. */
    method WriteJournal(source: Source, lines: seq<Line>)
      requires Valid() && Postable(lines)
      requires forall j | 0 <= j < |journals| :: journals[j].source != source
      modifies this
      ensures Valid() && journals == old(journals) + [JournalRow(source, lines)]
      ensures Journals() == old(Journals()) + [Journal(source, lines)]
    {
      hide Postable, LinesOf;
      var id := |journals|;
      NoLines(entries, accounts, id);
      for i := 0 to |lines|
        invariant journals == old(journals)
        invariant forall a, b | 0 <= a < b < |accounts| :: accounts[a] != accounts[b]
        invariant forall e | e in entries :: e.account < |accounts| && e.journal <= id
        invariant forall j | 0 <= j < id :: LinesOf(entries, accounts, j) == journals[j].digest
        invariant LinesOf(entries, accounts, id) == lines[..i]
      {
        WriteEntry(id, lines[i]);
      }
      assert lines[..|lines|] == lines;
      journals := journals + [JournalRow(source, lines)];
    }
  }
}
