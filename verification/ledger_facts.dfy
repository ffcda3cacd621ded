/**
  What `extract_transactions` (backend/app.py, lines 38-58) promises about
  its rows, stated over the layout of the ledger lines it reads.
 */
module LedgerFacts {
  import opened Options
  import opened Text
  import opened Regex
  import opened Amounts
  import opened Transactions

  // ------------------------------------------------- the row of a layout

  /** The Debit column of a ledger line: empty without a debit, otherwise
      its digits and point, followed by `Cr` when that was its suffix. */
  function DebitColumn(t: string, debit: Option<Token>): string
    requires debit.Some? ==> DebitAt(t, debit.value)
  {
    match debit
    case None => ""
    case Some(d) => Remove(t[d.start..d.body], ",") + (if d.end == d.body + 2 && t[d.body] == 'C' then "Cr" else "")
  }

  /** The Credit column of a ledger line: empty without a credit. */
  function CreditColumn(t: string, credit: Option<Token>): string
    requires credit.Some? ==> CreditAt(t, credit.value)
  {
    match credit
    case None => ""
    case Some(c) => Remove(t[c.start..c.body], ",")
  }

  /** The row a ledger line should give, read off its layout. */
  function RowOf(t: string, l: Layout): Transaction
    requires Fits(t, l)
  {
    Transaction(
      t[l.start..l.start + 11],
      Strip(t[l.desc.start..l.desc.end]),
      DebitColumn(t, l.debit),
      CreditColumn(t, l.credit),
      Remove(t[l.balance.start..l.balance.body], ","))
  }

  // ------------------------------------------------------------ linking

  lemma AmountIs(t: string, i: nat, j: nat)
    requires AmountAt(t, i, j)
    ensures IsAmount(t[i..j])
  {
    var s := t[i..j];
    assert forall k :: 0 <= k < |s| ==> s[k] == t[i + k];
  }

  lemma DirectionIs(t: string, i: nat)
    requires DirectionAt(t, i)
    ensures IsDirection(t[i..i + 2])
    ensures t[i..i + 2] == "Cr" <==> t[i] == 'C'
  {
    var s := t[i..i + 2];
    assert s[0] == t[i] && s[1] == t[i + 1];
    if t[i] == 'C' { assert s == "Cr"; } else { assert s == "Dr"; }
  }

  /** The groups a layout reports, one by one. */
  lemma GroupsAt(l: Layout)
    ensures var g := Groups(l);
      && 1 in g && g[1] == Span(l.start, l.start + 11)
      && 2 in g && g[2] == l.desc
      && (3 in g <==> l.debit.Some?) && (l.debit.Some? ==> g[3] == l.debit.value.Whole())
      && (4 in g <==> l.credit.Some?) && (l.credit.Some? ==> g[4] == l.credit.value.Whole())
      && 5 in g && g[5] == l.balance.Whole()
  {
  }

  /** Lines 46 and 53 on a debit token. */
  lemma DebitRow(t: string, debit: Option<Token>, captured: Option<string>)
    requires debit.Some? ==> DebitAt(t, debit.value)
    requires captured == if debit.Some? then Some(t[debit.value.start..debit.value.end]) else None
    ensures NormalizeDebit(captured.GetOr("")) == DebitColumn(t, debit)
  {
    if debit.Some? {
      var d := debit.value;
      AmountIs(t, d.start, d.body);
      var body, sfx := t[d.start..d.body], t[d.body..d.end];
      assert t[d.start..d.end] == body + sfx;
      if d.end == d.body + 2 {
        DirectionIs(t, d.body);
      }
      DebitOfAmount(body, sfx);
    }
  }

  /** Lines 47 and 54 on a credit token. */
  lemma CreditRow(t: string, credit: Option<Token>, captured: Option<string>)
    requires credit.Some? ==> CreditAt(t, credit.value)
    requires captured == if credit.Some? then Some(t[credit.value.start..credit.value.end]) else None
    ensures NormalizeCredit(captured.GetOr("")) == CreditColumn(t, credit)
  {
    if credit.Some? {
      var c := credit.value;
      AmountIs(t, c.start, c.body);
      CreditOfAmount(t[c.start..c.body]);
    }
  }

  /** Lines 48 and 55 on the balance token. */
  lemma BalanceRow(t: string, b: Token)
    requires BalanceAt(t, b)
    ensures NormalizeBalance(t[b.start..b.end]) == Remove(t[b.start..b.body], ",")
    ensures IsPlain(NormalizeBalance(t[b.start..b.end]))
  {
    AmountIs(t, b.start, b.body);
    DirectionIs(t, b.body);
    assert t[b.start..b.end] == t[b.start..b.body] + t[b.body..b.end];
    BalanceOfAmount(t[b.start..b.body], t[b.body..b.end]);
  }

  /** The row `extract_transactions` builds from the match at `i` is the
      row of the ledger line the match reads. */
  lemma MatchRow(t: string, i: nat) returns (l: Layout)
    requires i <= |t| && MatchAt(Ledger, t, false, i).Some?
    ensures l.start == i && Fits(t, l)
    ensures MatchAt(Ledger, t, false, i).value.groups == Groups(l)
    ensures Record(t, MatchAt(Ledger, t, false, i).value) == RowOf(t, l)
  {
    l := MatchLayout(t, i);
    LayoutRecord(t, MatchAt(Ledger, t, false, i).value, l);
  }

  /** A match whose groups are those of a fitting layout records the row
      of that layout. */
  lemma LayoutRecord(t: string, m: Match, l: Layout)
    requires Fits(t, l) && MatchValid(t, m) && m.groups == Groups(l)
    ensures Record(t, m) == RowOf(t, l)
  {
    GroupsAt(l);
    DebitRow(t, l.debit, Captured(t, m, 3));
    CreditRow(t, l.credit, Captured(t, m, 4));
    BalanceRow(t, l.balance);
  }

  // ---------------------------------------------------- the row's shape

  /** `DD-Mon-YYYY` and nothing else. */
  predicate LedgerDate(s: string) {
    |s| == 11 && DateTokenAt(s, 0)
  }

  /** A Debit column: a plain amount, or one with the `Cr` the first
      `replace` leaves behind. */
  predicate DebitShape(s: string) {
    IsPlain(s) || (|s| >= 5 && IsPlain(s[..|s| - 2]) && s[|s| - 2..] == "Cr")
  }

  /** A row of the result as the columns' promises describe it. */
  predicate WellFormedRow(r: Transaction) {
    && LedgerDate(r.date)
    && IsTrimmed(r.description) && '\n' !in r.description
    && (r.debit == "" || DebitShape(r.debit))
    && (r.credit == "" || IsPlain(r.credit))
    && IsPlain(r.balance)
  }

  lemma DateShape(t: string, i: nat)
    requires DateTokenAt(t, i)
    ensures LedgerDate(t[i..i + 11])
  {
    var s := t[i..i + 11];
    assert forall k :: 0 <= k < 11 ==> s[k] == t[i + k];
  }

  /** The stripped description is a slice of a line, so it has no break. */
  lemma DescriptionShape(s: string)
    requires forall p :: 0 <= p < |s| ==> s[p] != '\n'
    ensures IsTrimmed(Strip(s)) && '\n' !in Strip(s)
  {
    var r, a := Strip(s), LeadingSpace(s);
    assert forall k :: 0 <= k < |r| ==> r[k] == s[a + k];
  }

  lemma DescriptionSlice(t: string, lo: nat, hi: nat)
    requires lo <= hi <= |t| && forall p :: lo <= p < hi ==> t[p] != '\n'
    ensures forall p :: 0 <= p < hi - lo ==> t[lo..hi][p] != '\n'
  {
    assert forall p :: 0 <= p < hi - lo ==> t[lo..hi][p] == t[lo + p];
  }

  lemma KeptCr(p: string)
    requires IsPlain(p)
    ensures DebitShape(p + "Cr")
  {
    var s := p + "Cr";
    assert s[..|s| - 2] == p && s[|s| - 2..] == "Cr";
  }

  lemma DebitColumnShape(t: string, debit: Option<Token>)
    requires debit.Some? ==> DebitAt(t, debit.value)
    ensures DebitColumn(t, debit) == "" <==> debit.None?
    ensures debit.Some? ==> DebitShape(DebitColumn(t, debit))
  {
    if debit.Some? {
      var d := debit.value;
      AmountIs(t, d.start, d.body);
      PlainOfAmount(t[d.start..d.body]);
      var p := Remove(t[d.start..d.body], ",");
      var s := DebitColumn(t, debit);
      if d.end == d.body + 2 && t[d.body] == 'C' {
        assert s == p + "Cr";
        KeptCr(p);
      } else {
        assert s == p;
      }
    }
  }

  lemma CreditColumnShape(t: string, credit: Option<Token>)
    requires credit.Some? ==> CreditAt(t, credit.value)
    ensures CreditColumn(t, credit) == "" <==> credit.None?
    ensures credit.Some? ==> IsPlain(CreditColumn(t, credit))
  {
    if credit.Some? {
      var c := credit.value;
      AmountIs(t, c.start, c.body);
      PlainOfAmount(t[c.start..c.body]);
    }
  }

  /** Every column of a ledger line's row has the shape its line promises:
      the Debit and Credit columns are empty exactly when the line has no
      debit or no credit. */
  lemma RowShape(t: string, l: Layout)
    requires Fits(t, l)
    ensures WellFormedRow(RowOf(t, l))
    ensures RowOf(t, l).debit == "" <==> l.debit.None?
    ensures RowOf(t, l).credit == "" <==> l.credit.None?
  {
    DateShape(t, l.start);
    DescriptionSlice(t, l.desc.start, l.desc.end);
    DescriptionShape(t[l.desc.start..l.desc.end]);
    DebitColumnShape(t, l.debit);
    CreditColumnShape(t, l.credit);
    AmountIs(t, l.balance.start, l.balance.body);
    PlainOfAmount(t[l.balance.start..l.balance.body]);
  }

  /** Every row `extract_transactions` returns is well formed. */
  lemma RowsWellFormed(t: string)
    ensures forall k :: 0 <= k < |TransactionsOf(t)| ==> WellFormedRow(TransactionsOf(t)[k])
  {
    var ms := FindAll(t, 0);
    forall k | 0 <= k < |ms| ensures WellFormedRow(TransactionsOf(t)[k]) {
      var l := MatchRow(t, ms[k].start);
      RowShape(t, l);
    }
  }

  /** The Debit and Credit columns of the match at `i` are empty exactly
      when groups 3 and 4 took no part in it. */
  lemma MatchColumns(t: string, i: nat)
    requires i <= |t| && MatchAt(Ledger, t, false, i).Some?
    ensures var m := MatchAt(Ledger, t, false, i).value;
      && (Record(t, m).debit == "" <==> 3 !in m.groups)
      && (Record(t, m).credit == "" <==> 4 !in m.groups)
  {
    var l := MatchRow(t, i);
    GroupsAt(l);
    RowShape(t, l);
  }

  /** In every row `extract_transactions` returns, Debit is `""` exactly
      when group 3 did not take part in its match, and Credit is `""`
      exactly when group 4 did not. */
  lemma RowsMissingGroups(t: string)
    ensures forall k :: 0 <= k < |TransactionsOf(t)| ==>
      && (TransactionsOf(t)[k].debit == "" <==> 3 !in FindAll(t, 0)[k].groups)
      && (TransactionsOf(t)[k].credit == "" <==> 4 !in FindAll(t, 0)[k].groups)
  {
    var ms := FindAll(t, 0);
    forall k | 0 <= k < |ms|
      ensures && (TransactionsOf(t)[k].debit == "" <==> 3 !in ms[k].groups)
              && (TransactionsOf(t)[k].credit == "" <==> 4 !in ms[k].groups)
    {
      MatchColumns(t, ms[k].start);
    }
  }

  // ---------------------------------------------------------- the scan

  /** Where the scan stands before the `k`-th match: at `from` or at the
      end of the match before. */
  function Resume(from: nat, ms: seq<Match>, k: nat): nat
    requires k <= |ms|
  {
    if k == 0 then from else ms[k - 1].end
  }

  /** The outcome of `pattern.match(text, i)` at every index, `None` past
      the end of the text. */
  ghost function LedgerAt(t: string): nat -> Option<Match> {
    (i: nat) => if i <= |t| then MatchAt(Ledger, t, false, i) else None
  }

  /** `at` fails at every index from `lo` up to `hi`. */
  ghost predicate Clear(at: nat -> Option<Match>, lo: nat, hi: nat) {
    forall i :: lo <= i < hi ==> at(i).None?
  }

  /** `m` is what a search from `from` finds: the match at the first index
      from `from` on where `at` succeeds. */
  ghost predicate Leftmost(at: nat -> Option<Match>, from: nat, m: Match) {
    from <= m.start && at(m.start) == Some(m) && Clear(at, from, m.start)
  }

  /** `ms` is what a left-to-right scan from `from` finds: each match is the
      leftmost one from where the scan stands, and after the last one the
      text holds no match up to its end `len`. */
  ghost predicate IsScan(at: nat -> Option<Match>, len: nat, from: nat, ms: seq<Match>) {
    Steps(at, from, ms) && Clear(at, Resume(from, ms, |ms|), len + 1)
  }

  /** Each match of `ms` is the leftmost one from where the scan stands. */
  ghost predicate Steps(at: nat -> Option<Match>, from: nat, ms: seq<Match>) {
    forall k :: 0 <= k < |ms| ==> Leftmost(at, Resume(from, ms, k), ms[k])
  }

  /** `pattern.search(text, from)` is exactly the leftmost match. */
  lemma SearchLeftmost(t: string, from: nat)
    requires from <= |t|
    ensures Search(Ledger, t, false, from).Some? ==> Leftmost(LedgerAt(t), from, Search(Ledger, t, false, from).value)
    ensures Search(Ledger, t, false, from).None? <==> Clear(LedgerAt(t), from, |t| + 1)
  {
    if Clear(LedgerAt(t), from, |t| + 1) {
      forall i | from <= i <= |t| ensures MatchAt(Ledger, t, false, i).None? {
        assert LedgerAt(t)(i).None?;
      }
      SearchMisses(Ledger, t, false, from);
    }
  }

  lemma LeftmostSearch(t: string, from: nat, m: Match)
    requires Leftmost(LedgerAt(t), from, m)
    ensures Search(Ledger, t, false, from) == Some(m)
  {
    assert m.start <= |t|;
    forall i | from <= i < m.start ensures MatchAt(Ledger, t, false, i).None? {
      assert LedgerAt(t)(i).None?;
    }
    SearchFinds(Ledger, t, false, from, m.start);
  }

  /** Entry `k` of `[m] + rest` and its resume point are those of entry
      `k - 1` of `rest`. */
  lemma ConsAt(from: nat, m: Match, rest: seq<Match>, k: nat)
    requires 1 <= k <= |rest|
    ensures ([m] + rest)[k] == rest[k - 1]
    ensures Resume(from, [m] + rest, k + 1) == Resume(m.end, rest, k)
    ensures Resume(from, [m] + rest, k) == Resume(m.end, rest, k - 1)
  {
  }

  lemma ConsEntry(at: nat -> Option<Match>, from: nat, m: Match, rest: seq<Match>, k: nat)
    requires Leftmost(at, from, m) && Steps(at, m.end, rest)
    requires k < |rest| + 1
    ensures Leftmost(at, Resume(from, [m] + rest, k), ([m] + rest)[k])
  {
    if k > 0 {
      ConsAt(from, m, rest, k);
      assert Leftmost(at, Resume(m.end, rest, k - 1), rest[k - 1]);
    }
  }

  lemma ConsLast(at: nat -> Option<Match>, len: nat, from: nat, m: Match, rest: seq<Match>)
    requires Clear(at, Resume(m.end, rest, |rest|), len + 1)
    ensures Clear(at, Resume(from, [m] + rest, |rest| + 1), len + 1)
  {
    if rest != [] { ConsAt(from, m, rest, |rest|); }
  }

  /** A scan that starts with the leftmost match and goes on from its end. */
  lemma ScanCons(at: nat -> Option<Match>, len: nat, from: nat, m: Match, rest: seq<Match>)
    requires Leftmost(at, from, m) && IsScan(at, len, m.end, rest)
    ensures IsScan(at, len, from, [m] + rest)
  {
    ConsSteps(at, from, m, rest);
    ConsLast(at, len, from, m, rest);
  }

  /** A leftmost match followed by leftmost steps from its end is a run of
      leftmost steps. */
  lemma ConsSteps(at: nat -> Option<Match>, from: nat, m: Match, rest: seq<Match>)
    requires Leftmost(at, from, m) && Steps(at, m.end, rest)
    ensures Steps(at, from, [m] + rest)
  {
    forall k | 0 <= k < |rest| + 1 ensures Leftmost(at, Resume(from, [m] + rest, k), ([m] + rest)[k]) {
      ConsEntry(at, from, m, rest, k);
    }
  }

  /** Entry `k` of `ms[1..]` and its resume point are those of entry
      `k + 1` of `ms`. */
  lemma TailAt(from: nat, ms: seq<Match>, k: nat)
    requires k < |ms|
    ensures k + 1 < |ms| ==> ms[1..][k] == ms[k + 1]
    ensures Resume(ms[0].end, ms[1..], k) == Resume(from, ms, k + 1)
  {
  }

  /** What is left of a scan after its first match. */
  lemma ScanTail(at: nat -> Option<Match>, len: nat, from: nat, ms: seq<Match>)
    requires |ms| > 0 && IsScan(at, len, from, ms)
    ensures IsScan(at, len, ms[0].end, ms[1..])
  {
    TailSteps(at, from, ms);
    TailAt(from, ms, |ms| - 1);
  }

  /** Dropping the first of a run of leftmost steps leaves a run of
      leftmost steps from that match's end. */
  lemma TailSteps(at: nat -> Option<Match>, from: nat, ms: seq<Match>)
    requires |ms| > 0 && Steps(at, from, ms)
    ensures Steps(at, ms[0].end, ms[1..])
  {
    var rest := ms[1..];
    forall k | 0 <= k < |rest| ensures Leftmost(at, Resume(ms[0].end, rest, k), rest[k]) {
      TailAt(from, ms, k);
    }
  }

  /** The first match of a scan is the leftmost match. */
  lemma ScanHead(t: string, from: nat, ms: seq<Match>)
    requires from <= |t| && IsScan(LedgerAt(t), |t|, from, ms)
    ensures Search(Ledger, t, false, from) == if ms == [] then None else Some(ms[0])
  {
    SearchLeftmost(t, from);
    if ms != [] {
      assert Leftmost(LedgerAt(t), Resume(from, ms, 0), ms[0]);
      LeftmostSearch(t, from, ms[0]);
    }
  }

  /** `FindAll` is a left-to-right scan. */
  lemma {:induction false} FindAllScan(t: string, from: nat)
    requires from <= |t|
    ensures IsScan(LedgerAt(t), |t|, from, FindAll(t, from))
    decreases |t| - from
  {
    SearchLeftmost(t, from);
    match Search(Ledger, t, false, from)
    case None =>
    case Some(m) =>
      MatchAdvances(t, m.start);
      FindAllScan(t, m.end);
      ScanCons(LedgerAt(t), |t|, from, m, FindAll(t, m.end));
  }

  /** One step of `FindAll`. */
  lemma FindAllFrom(t: string, from: nat)
    requires from <= |t| && Search(Ledger, t, false, from).Some?
    ensures var m := Search(Ledger, t, false, from).value;
      m.end <= |t| && FindAll(t, from) == [m] + FindAll(t, m.end)
  {
    MatchAdvances(t, Search(Ledger, t, false, from).value.start);
  }

  /** There is one left-to-right scan, and `FindAll` is it. */
  lemma {:induction false} ScanUnique(t: string, from: nat, ms: seq<Match>)
    requires from <= |t| && IsScan(LedgerAt(t), |t|, from, ms)
    ensures ms == FindAll(t, from)
    decreases |t| - from
  {
    ScanHead(t, from, ms);
    if ms != [] {
      var m := ms[0];
      MatchAdvances(t, m.start);
      ScanTail(LedgerAt(t), |t|, from, ms);
      ScanUnique(t, m.end, ms[1..]);
      FindAllFrom(t, from);
      assert ms == [m] + ms[1..];
    }
  }

  // ------------------------------------------------- matches and lines

  /** A ledger line of `t` starts at `i`. */
  ghost predicate LineAt(t: string, i: nat) {
    exists l: Layout :: l.start == i && Fits(t, l)
  }

  /** `pattern.match(text, i)` succeeds exactly where a ledger line starts. */
  lemma MatchIffLine(t: string, i: nat)
    requires i <= |t|
    ensures MatchAt(Ledger, t, false, i).Some? <==> LineAt(t, i)
  {
    if MatchAt(Ledger, t, false, i).Some? {
      var l := MatchLayout(t, i);
    }
    if LineAt(t, i) {
      var l: Layout :| l.start == i && Fits(t, l);
      LedgerFrom(t, l);
      DerivesMatch(Ledger, t, false, i, State(l.balance.end, Groups(l)));
    }
  }

  /** The stretch between the resume point before match `k` and the end of
      match `k`, for some `k <= j`, holds `i`, given that `i` lies between
      the scan's start and the end of match `j`. */
  lemma {:induction false} ScanCovers(from: nat, ms: seq<Match>, j: nat, i: nat) returns (k: nat)
    requires j < |ms|
    requires from <= i < ms[j].end
    ensures k <= j && Resume(from, ms, k) <= i < ms[k].end
  {
    if j == 0 || ms[j - 1].end <= i {
      k := j;
    } else {
      k := ScanCovers(from, ms, j - 1, i);
    }
  }

  /** No ledger line is passed over: every index where one starts is the
      start of a match or lies inside one. */
  lemma EveryLineCovered(t: string, i: nat)
    requires i <= |t| && LineAt(t, i)
    ensures exists k :: 0 <= k < |FindAll(t, 0)| && FindAll(t, 0)[k].start <= i < FindAll(t, 0)[k].end
  {
    var ms := FindAll(t, 0);
    FindAllScan(t, 0);
    MatchIffLine(t, i);
    assert LedgerAt(t)(i).Some?;
    assert ms != [] && i < ms[|ms| - 1].end;
    var k := ScanCovers(0, ms, |ms| - 1, i);
    assert Leftmost(LedgerAt(t), Resume(0, ms, k), ms[k]);
    assert ms[k].start <= i;
  }

  /** The matches do not overlap and come in increasing order of start:
      each begins at or after the end of the one before, and each spans
      at least the 21 characters of a date, three blanks and a balance. */
  lemma MatchesInOrder(t: string)
    ensures var ms := FindAll(t, 0);
      forall k :: 0 <= k < |ms| ==> ms[k].start + 21 <= ms[k].end && (k > 0 ==> ms[k - 1].end <= ms[k].start)
  {
    var ms := FindAll(t, 0);
    FindAllScan(t, 0);
    forall k | 0 <= k < |ms| ensures ms[k].start + 21 <= ms[k].end && (k > 0 ==> ms[k - 1].end <= ms[k].start) {
      assert Leftmost(LedgerAt(t), Resume(0, ms, k), ms[k]);
      MatchAdvances(t, ms[k].start);
    }
  }

  /** The match at `i` reads a ledger line there and reports its date. */
  lemma MatchDate(t: string, i: nat)
    requires i <= |t| && MatchAt(Ledger, t, false, i).Some?
    ensures LineAt(t, i) && i + 11 <= |t|
    ensures Record(t, MatchAt(Ledger, t, false, i).value).date == t[i..i + 11]
  {
    var l := MatchRow(t, i);
  }

  /** Every row comes from a ledger line at the start of its match, and its
      Date column is that line's date. */
  lemma RowsFromLines(t: string, k: nat)
    requires k < |FindAll(t, 0)|
    ensures var m := FindAll(t, 0)[k];
      && LineAt(t, m.start)
      && m.start + 11 <= |t| && TransactionsOf(t)[k].date == t[m.start..m.start + 11]
  {
    MatchDate(t, FindAll(t, 0)[k].start);
  }

  /** A text without a single `DD-Mon-YYYY` token gives no rows. */
  lemma RowsNeedADate(t: string)
    ensures TransactionsOf(t) != [] ==> exists i :: DateTokenAt(t, i)
  {
    if TransactionsOf(t) != [] {
      var l := MatchLayout(t, FindAll(t, 0)[0].start);
      assert DateTokenAt(t, l.start);
    }
  }

  /** The blanks before the balance: one at least after a credit, two when
      the credit is missing and three when the debit is missing too, since
      every `\s+` of line 41 takes at least one. In every case the balance
      follows a blank, and that blank follows another or the last digit of
      the credit. */
  lemma BalanceSpacing(t: string, l: Layout)
    requires Fits(t, l)
    ensures 2 <= l.balance.start && IsSpace(t[l.balance.start - 1])
    ensures IsSpace(t[l.balance.start - 2]) || (l.credit.Some? && IsDigit(t[l.balance.start - 2]))
    ensures l.credit.None? ==> 2 <= l.balance.start && Gap(t, l.balance.start - 2, l.balance.start, 2)
    ensures l.debit.None? && l.credit.None? ==> 3 <= l.balance.start && Gap(t, l.balance.start - 3, l.balance.start, 3)
  {
  }
}
