/**
  `extract_transactions` (backend/app.py, lines 38-58): every non-overlapping
  match of the ledger-line pattern of line 41, found left to right by
  `re.finditer` without DOTALL, becomes one record whose five columns are the
  match's groups, with the amounts normalised by the chained `str.replace`
  calls of lines 53-55.
 */
module Transactions {
  import opened Options
  import opened Text
  import opened Regex
  import opened Amounts

  // ------------------------------------------------------------ the pattern

  /** `\s+` */
  const Blanks: Regex := Repeat(Space, 1, None, true)

  /** `\d{2}-[A-Za-z]{3}-\d{4}` */
  const DateBody: Regex :=
    Cat(Digits(2), Cat(Lit("-"), Cat(Repeat(Letter, 3, Some(3), true), Cat(Lit("-"), Digits(4)))))

  /** `[\d,]+\.\d{2}` */
  const AmountBody: Regex := Cat(Repeat(DigitOrComma, 1, None, true), Cat(Lit("."), Digits(2)))

  /** `(?:Dr|Cr)` */
  const Direction: Regex := Alt(Lit("Dr"), Lit("Cr"))

  /** `\s+([\d,]+\.\d{2}(?:Dr|Cr))`: the balance, group 5. */
  const BalanceTail: Regex := Cat(Blanks, Group(5, Cat(AmountBody, Direction)))

  /** `([\d,]+\.\d{2})?` then the balance: the optional credit, group 4. */
  const CreditTail: Regex := Cat(Opt(Group(4, AmountBody)), BalanceTail)

  const CreditSlot: Regex := Cat(Blanks, CreditTail)

  /** `([\d,]+\.\d{2}(?:Dr|Cr)?)?` then the rest: the optional debit, group 3. */
  const DebitTail: Regex := Cat(Opt(Group(3, Cat(AmountBody, Opt(Direction)))), CreditSlot)

  const DebitSlot: Regex := Cat(Blanks, DebitTail)

  /** `(.*?)` then the rest: the description, group 2. */
  const DescTail: Regex := Cat(Group(2, Repeat(AnyChar, 0, None, false)), DebitSlot)

  const DescSlot: Regex := Cat(Blanks, DescTail)

  /** The pattern of line 41; the date is group 1. */
  const Ledger: Regex := Cat(Group(1, DateBody), DescSlot)

  // --------------------------------------------- the pattern, declaratively

  /** `DD-Mon-YYYY` at index `i`: two digits, a dash, three ASCII letters, a
      dash, four digits. */
  predicate DateTokenAt(t: string, i: nat) {
    && i + 11 <= |t|
    && IsDigit(t[i]) && IsDigit(t[i + 1]) && t[i + 2] == '-'
    && IsLetter(t[i + 3]) && IsLetter(t[i + 4]) && IsLetter(t[i + 5]) && t[i + 6] == '-'
    && IsDigit(t[i + 7]) && IsDigit(t[i + 8]) && IsDigit(t[i + 9]) && IsDigit(t[i + 10])
  }

  /** `t[lo..hi]` is whitespace only and at least `k` long: `k` of `\s+` in
      a row match exactly such a run. */
  predicate Gap(t: string, lo: nat, hi: nat, k: nat) {
    lo + k <= hi <= |t| && forall p :: lo <= p < hi ==> IsSpace(t[p])
  }

  /** An amount token: `t[start..body]` is the amount and `t[body..end]`
      the direction suffix that follows it, if any. */
  datatype Token = Token(start: nat, body: nat, end: nat) {
    function Whole(): Span {
      Span(start, end)
    }
  }

  /** `[\d,]+\.\d{2}` is `t[i..j]`. */
  predicate AmountAt(t: string, i: nat, j: nat) {
    && i + 4 <= j <= |t|
    && (forall k :: i <= k < j - 3 ==> IsDigit(t[k]) || t[k] == ',')
    && t[j - 3] == '.' && IsDigit(t[j - 2]) && IsDigit(t[j - 1])
  }

  /** `(?:Dr|Cr)` at index `i`. */
  predicate DirectionAt(t: string, i: nat) {
    i + 2 <= |t| && (t[i] == 'D' || t[i] == 'C') && t[i + 1] == 'r'
  }

  /** `[\d,]+\.\d{2}(?:Dr|Cr)?` */
  predicate DebitAt(t: string, d: Token) {
    AmountAt(t, d.start, d.body) && (d.end == d.body || (d.end == d.body + 2 && DirectionAt(t, d.body)))
  }

  /** `[\d,]+\.\d{2}` */
  predicate CreditAt(t: string, c: Token) {
    AmountAt(t, c.start, c.body) && c.end == c.body
  }

  /** `[\d,]+\.\d{2}(?:Dr|Cr)` */
  predicate BalanceAt(t: string, b: Token) {
    AmountAt(t, b.start, b.body) && b.end == b.body + 2 && DirectionAt(t, b.body)
  }

  /** From `from` on: `k` blank runs, the credit if there is one and a blank
      run after it, then the balance. Without a credit its blank run and the
      one before the balance are adjacent, so `k + 1` runs remain. */
  predicate CreditPart(t: string, from: nat, credit: Option<Token>, bal: Token, k: nat) {
    && BalanceAt(t, bal)
    && match credit
       case Some(c) => Gap(t, from, c.start, k) && CreditAt(t, c) && Gap(t, c.end, bal.start, 1)
       case None => Gap(t, from, bal.start, k + 1)
  }

  /** From the end of the description on: a blank run, the debit if there is
      one, then the rest; without a debit two blank runs are adjacent. */
  predicate AmountsPart(t: string, from: nat, debit: Option<Token>, credit: Option<Token>, bal: Token) {
    match debit
    case Some(d) => Gap(t, from, d.start, 1) && DebitAt(t, d) && CreditPart(t, d.end, credit, bal, 1)
    case None => CreditPart(t, from, credit, bal, 2)
  }

  /** Where each part of a ledger line lies: the date starts at `start`. */
  datatype Layout = Layout(start: nat, desc: Span, debit: Option<Token>, credit: Option<Token>, balance: Token)

  /** The layout is a ledger line of `t` read the way line 41 reads it: the
      date, then the rest of the line. */
  predicate Fits(t: string, l: Layout) {
    DateTokenAt(t, l.start) && AfterDate(t, l)
  }

  /** After the date: blanks, a description with no line break (`.` without
      DOTALL), then the amounts. */
  predicate AfterDate(t: string, l: Layout) {
    && Gap(t, l.start + 11, l.desc.start, 1)
    && l.desc.start <= l.desc.end <= |t|
    && (forall p :: l.desc.start <= p < l.desc.end ==> t[p] != '\n')
    && AmountsPart(t, l.desc.end, l.debit, l.credit, l.balance)
  }

  /** Records `tok` as group `n`, when there is one. */
  function Put(caps: map<nat, Span>, n: nat, tok: Option<Token>): map<nat, Span> {
    if tok.Some? then caps[n := tok.value.Whole()] else caps
  }

  /** `caps` with the amounts recorded as groups 3 to 5. */
  function AmountGroups(caps: map<nat, Span>, debit: Option<Token>, credit: Option<Token>, bal: Token): map<nat, Span> {
    Put(Put(caps, 3, debit), 4, credit)[5 := bal.Whole()]
  }

  /** The groups a match with this layout reports. */
  function Groups(l: Layout): map<nat, Span> {
    AmountGroups(map[1 := Span(l.start, l.start + 11)][2 := l.desc], l.debit, l.credit, l.balance)
  }

  // ------------------------------------- from derivations to the layout

  lemma GapJoin(t: string, lo: nat, mid: nat, hi: nat, j: nat, k: nat)
    requires Gap(t, lo, mid, j) && Gap(t, mid, hi, k)
    ensures Gap(t, lo, hi, j + k)
  {
  }

  /** A derivation of `[\d,]+\.\d{2}` covers an amount and captures nothing. */
  lemma AmountDerives(t: string, st: State, out: State)
    requires Derives(AmountBody, t, false, st, out)
    ensures out.caps == st.caps && AmountAt(t, st.pos, out.pos)
  {
    var run := RepeatSplit(DigitOrComma, 1, None, true, Cat(Lit("."), Digits(2)), t, false, st, out);
    LitSplit(".", Digits(2), t, false, run, out);
    StartsAtChars(t, run.pos, ".");
    assert Derives(Digits(2), t, false, State(run.pos + 1, run.caps), out);
    assert InClass(Digit, false, t[run.pos + 1]) && InClass(Digit, false, t[run.pos + 2]);
  }

  /** A derivation of `(?:Dr|Cr)` covers one of the two suffixes. */
  lemma DirectionDerives(t: string, st: State, out: State)
    requires Derives(Direction, t, false, st, out)
    ensures out == State(st.pos + 2, st.caps) && DirectionAt(t, st.pos)
  {
    AltSplit(Lit("Dr"), Lit("Cr"), t, false, st, out);
    if Derives(Lit("Dr"), t, false, st, out) {
      StartsAtChars(t, st.pos, "Dr");
    } else {
      StartsAtChars(t, st.pos, "Cr");
    }
  }

  /** A derivation of `\s+ rest` starts with a blank run up to `mid`. */
  lemma BlanksThen(b: Regex, t: string, st: State, out: State) returns (mid: State)
    requires Derives(Cat(Blanks, b), t, false, st, out)
    ensures mid.caps == st.caps && Gap(t, st.pos, mid.pos, 1)
    ensures Derives(b, t, false, mid, out)
  {
    mid := RepeatSplit(Space, 1, None, true, b, t, false, st, out);
  }

  lemma BalanceTailDerives(t: string, st: State, out: State) returns (bal: Token)
    requires Derives(BalanceTail, t, false, st, out)
    ensures Gap(t, st.pos, bal.start, 1) && BalanceAt(t, bal) && out.pos == bal.end
    ensures out.caps == st.caps[5 := bal.Whole()]
  {
    var mid := BlanksThen(Group(5, Cat(AmountBody, Direction)), t, st, out);
    var inner := GroupSplit(5, Cat(AmountBody, Direction), t, false, mid, out);
    var body := CatSplit(AmountBody, Direction, t, false, mid, inner);
    AmountDerives(t, mid, body);
    DirectionDerives(t, body, inner);
    bal := Token(mid.pos, body.pos, inner.pos);
  }

  /** The optional credit and the balance, from `st`. */
  lemma CreditTailDerives(t: string, st: State, out: State) returns (credit: Option<Token>, bal: Token)
    requires Derives(CreditTail, t, false, st, out)
    ensures BalanceAt(t, bal) && out.pos == bal.end
    ensures credit.Some? ==> credit.value.start == st.pos && CreditAt(t, credit.value) && Gap(t, credit.value.end, bal.start, 1)
    ensures credit.None? ==> Gap(t, st.pos, bal.start, 1)
    ensures out.caps == Put(st.caps, 4, credit)[5 := bal.Whole()]
  {
    var mid := CatSplit(Opt(Group(4, AmountBody)), BalanceTail, t, false, st, out);
    OptSplit(Group(4, AmountBody), t, false, st, mid);
    if Derives(Group(4, AmountBody), t, false, st, mid) {
      var inner := GroupSplit(4, AmountBody, t, false, st, mid);
      AmountDerives(t, st, inner);
      credit := Some(Token(st.pos, inner.pos, inner.pos));
    } else {
      credit := None;
    }
    bal := BalanceTailDerives(t, mid, out);
  }

  lemma CreditSlotDerives(t: string, st: State, out: State) returns (credit: Option<Token>, bal: Token)
    requires Derives(CreditSlot, t, false, st, out)
    ensures CreditPart(t, st.pos, credit, bal, 1) && out.pos == bal.end
    ensures out.caps == Put(st.caps, 4, credit)[5 := bal.Whole()]
  {
    var mid := BlanksThen(CreditTail, t, st, out);
    credit, bal := CreditTailDerives(t, mid, out);
    if credit.None? {
      GapJoin(t, st.pos, mid.pos, bal.start, 1, 1);
    }
  }

  /** One more blank run in front of a credit part. */
  lemma CreditPartWiden(t: string, from: nat, mid: nat, credit: Option<Token>, bal: Token, k: nat)
    requires Gap(t, from, mid, 1) && CreditPart(t, mid, credit, bal, k)
    ensures CreditPart(t, from, credit, bal, k + 1)
  {
    match credit
    case Some(c) => GapJoin(t, from, mid, c.start, 1, k);
    case None => GapJoin(t, from, mid, bal.start, 1, k + 1);
  }

  /** A derivation of the debit's body `[\d,]+\.\d{2}(?:Dr|Cr)?` covers a
      debit token and captures nothing. */
  lemma DebitToken(t: string, st: State, out: State) returns (d: Token)
    requires Derives(Cat(AmountBody, Opt(Direction)), t, false, st, out)
    ensures out.caps == st.caps && d.start == st.pos && d.end == out.pos && DebitAt(t, d)
  {
    var amount := CatSplit(AmountBody, Opt(Direction), t, false, st, out);
    AmountDerives(t, st, amount);
    OptSplit(Direction, t, false, amount, out);
    if Derives(Direction, t, false, amount, out) {
      DirectionDerives(t, amount, out);
    }
    d := Token(st.pos, amount.pos, out.pos);
  }

  /** The optional debit and what follows it, from `st`. */
  lemma DebitTailDerives(t: string, st: State, out: State) returns (debit: Option<Token>, credit: Option<Token>, bal: Token)
    requires Derives(DebitTail, t, false, st, out)
    ensures out.pos == bal.end
    ensures debit.Some? ==> debit.value.start == st.pos && DebitAt(t, debit.value) && CreditPart(t, debit.value.end, credit, bal, 1)
    ensures debit.None? ==> CreditPart(t, st.pos, credit, bal, 1)
    ensures out.caps == AmountGroups(st.caps, debit, credit, bal)
  {
    var body := Cat(AmountBody, Opt(Direction));
    var mid := CatSplit(Opt(Group(3, body)), CreditSlot, t, false, st, out);
    OptSplit(Group(3, body), t, false, st, mid);
    if Derives(Group(3, body), t, false, st, mid) {
      var inner := GroupSplit(3, body, t, false, st, mid);
      var d := DebitToken(t, st, inner);
      debit := Some(d);
    } else {
      debit := None;
    }
    credit, bal := CreditSlotDerives(t, mid, out);
  }

  lemma DebitSlotDerives(t: string, st: State, out: State) returns (debit: Option<Token>, credit: Option<Token>, bal: Token)
    requires Derives(DebitSlot, t, false, st, out)
    ensures AmountsPart(t, st.pos, debit, credit, bal) && out.pos == bal.end
    ensures out.caps == AmountGroups(st.caps, debit, credit, bal)
  {
    var mid := BlanksThen(DebitTail, t, st, out);
    debit, credit, bal := DebitTailDerives(t, mid, out);
    if debit.None? {
      CreditPartWiden(t, st.pos, mid.pos, credit, bal, 1);
    }
  }

  /** A derivation of `(.*?) rest` takes a run without line breaks as group
      2 and derives the rest after it. */
  lemma DescThen(t: string, y: State, out: State) returns (e: nat)
    requires Derives(DescTail, t, false, y, out)
    ensures y.pos <= e && (e == y.pos || e <= |t|)
    ensures forall p :: y.pos <= p < e ==> t[p] != '\n'
    ensures Derives(DebitSlot, t, false, State(e, y.caps[2 := Span(y.pos, e)]), out)
  {
    var mid := CatSplit(Group(2, Repeat(AnyChar, 0, None, false)), DebitSlot, t, false, y, out);
    var inner := GroupSplit(2, Repeat(AnyChar, 0, None, false), t, false, y, mid);
    assert forall p :: y.pos <= p < inner.pos ==> InClass(AnyChar, false, t[p]);
    e := inner.pos;
  }

  /** The description and what follows it, after a date at `start`. */
  lemma DescSlotDerives(t: string, start: nat, out: State) returns (l: Layout)
    requires Derives(DescSlot, t, false, State(start + 11, map[1 := Span(start, start + 11)]), out)
    ensures l.start == start && AfterDate(t, l)
    ensures out.pos == l.balance.end && out.caps == Groups(l)
  {
    var y := BlanksThen(DescTail, t, State(start + 11, map[1 := Span(start, start + 11)]), out);
    var e := DescThen(t, y, out);
    var debit, credit, bal := DebitSlotDerives(t, State(e, y.caps[2 := Span(y.pos, e)]), out);
    l := Layout(start, Span(y.pos, e), debit, credit, bal);
    LayoutGroups(l, y.caps, out.caps);
  }

  lemma LayoutGroups(l: Layout, caps: map<nat, Span>, out: map<nat, Span>)
    requires caps == map[1 := Span(l.start, l.start + 11)]
    requires out == AmountGroups(caps[2 := l.desc], l.debit, l.credit, l.balance)
    ensures out == Groups(l)
  {
  }

  /** A derivation of `-\d{4}` from `st`. */
  lemma YearDerives(t: string, st: State, out: State)
    requires Derives(Cat(Lit("-"), Digits(4)), t, false, st, out)
    ensures out == State(st.pos + 5, st.caps) && st.pos + 5 <= |t| && t[st.pos] == '-'
    ensures forall p :: st.pos + 1 <= p < st.pos + 5 ==> IsDigit(t[p])
  {
    LitSplit("-", Digits(4), t, false, st, out);
    StartsAtChars(t, st.pos, "-");
    assert Derives(Digits(4), t, false, State(st.pos + 1, st.caps), out);
    assert forall p :: st.pos + 1 <= p < st.pos + 5 ==> InClass(Digit, false, t[p]);
  }

  /** A derivation of `-[A-Za-z]{3}-\d{4}` from `st`. */
  lemma MonthDerives(t: string, st: State, out: State)
    requires Derives(Cat(Lit("-"), Cat(Repeat(Letter, 3, Some(3), true), Cat(Lit("-"), Digits(4)))), t, false, st, out)
    ensures out == State(st.pos + 9, st.caps) && st.pos + 9 <= |t| && t[st.pos] == '-'
    ensures IsLetter(t[st.pos + 1]) && IsLetter(t[st.pos + 2]) && IsLetter(t[st.pos + 3])
    ensures t[st.pos + 4] == '-' && forall p :: st.pos + 5 <= p < st.pos + 9 ==> IsDigit(t[p])
  {
    LitSplit("-", Cat(Repeat(Letter, 3, Some(3), true), Cat(Lit("-"), Digits(4))), t, false, st, out);
    StartsAtChars(t, st.pos, "-");
    var c := RepeatSplit(Letter, 3, Some(3), true, Cat(Lit("-"), Digits(4)), t, false, State(st.pos + 1, st.caps), out);
    YearDerives(t, c, out);
    assert InClass(Letter, false, t[st.pos + 1]) && InClass(Letter, false, t[st.pos + 2]) && InClass(Letter, false, t[st.pos + 3]);
  }

  /** A derivation of `\d{2}-[A-Za-z]{3}-\d{4}` covers a date token. */
  lemma DateDerives(t: string, st: State, out: State)
    requires Derives(DateBody, t, false, st, out)
    ensures out == State(st.pos + 11, st.caps) && DateTokenAt(t, st.pos)
  {
    var i := st.pos;
    var a := RepeatSplit(Digit, 2, Some(2), true,
      Cat(Lit("-"), Cat(Repeat(Letter, 3, Some(3), true), Cat(Lit("-"), Digits(4)))), t, false, st, out);
    MonthDerives(t, a, out);
    assert InClass(Digit, false, t[i]) && InClass(Digit, false, t[i + 1]);
    assert IsDigit(t[i + 7]) && IsDigit(t[i + 8]) && IsDigit(t[i + 9]) && IsDigit(t[i + 10]);
  }

  /** Every derivation of the ledger pattern from `i` lays out a ledger line
      starting at `i`, ends where its balance ends and reports its groups. */
  lemma LedgerDerives(t: string, i: nat, out: State) returns (l: Layout)
    requires Derives(Ledger, t, false, State(i, map[]), out)
    ensures l.start == i && Fits(t, l)
    ensures out.pos == l.balance.end && out.caps == Groups(l)
  {
    var mid := CatSplit(Group(1, DateBody), DescSlot, t, false, State(i, map[]), out);
    var inner := GroupSplit(1, DateBody, t, false, State(i, map[]), mid);
    DateDerives(t, State(i, map[]), inner);
    assert mid == State(i + 11, map[1 := Span(i, i + 11)]);
    l := DescSlotDerives(t, i, out);
  }

  // ------------------------------------- from the layout to derivations

  /** An amount derives the state just after it. */
  lemma AmountFrom(t: string, st: State, j: nat)
    requires AmountAt(t, st.pos, j)
    ensures Derives(AmountBody, t, false, st, State(j, st.caps))
  {
    var run, cents := State(j - 3, st.caps), State(j - 2, st.caps);
    DerivesRepeat(DigitOrComma, 1, None, true, t, false, st, j - 3);
    CharStartsAt(t, j - 3, '.');
    DerivesLit(".", t, false, run);
    DerivesRepeat(Digit, 2, Some(2), true, t, false, cents, j);
    DerivesCat(Lit("."), Digits(2), t, false, run, cents, State(j, st.caps));
    DerivesCat(Repeat(DigitOrComma, 1, None, true), Cat(Lit("."), Digits(2)), t, false, st, run, State(j, st.caps));
  }

  lemma DirectionFrom(t: string, st: State)
    requires DirectionAt(t, st.pos)
    ensures Derives(Direction, t, false, st, State(st.pos + 2, st.caps))
  {
    var i := st.pos;
    assert t[i..i + 2] == [t[i], t[i + 1]];
    if t[i] == 'D' {
      DerivesLit("Dr", t, false, st);
    } else {
      DerivesLit("Cr", t, false, st);
    }
    DerivesAlt(Lit("Dr"), Lit("Cr"), t, false, st, State(i + 2, st.caps));
  }

  lemma BlanksFrom(t: string, st: State, j: nat)
    requires Gap(t, st.pos, j, 1)
    ensures Derives(Blanks, t, false, st, State(j, st.caps))
  {
    DerivesRepeat(Space, 1, None, true, t, false, st, j);
  }

  /** A gap of `k + 1` blanks is one blank and a gap of `k`. */
  lemma GapSplit(t: string, lo: nat, hi: nat, k: nat)
    requires Gap(t, lo, hi, k + 1)
    ensures Gap(t, lo, lo + 1, 1) && Gap(t, lo + 1, hi, k)
  {
  }

  lemma BalanceTailFrom(t: string, st: State, bal: Token)
    requires Gap(t, st.pos, bal.start, 1) && BalanceAt(t, bal)
    ensures Derives(BalanceTail, t, false, st, State(bal.end, st.caps[5 := bal.Whole()]))
  {
    var a, b := State(bal.start, st.caps), State(bal.body, st.caps);
    var c := State(bal.end, st.caps);
    BlanksFrom(t, st, bal.start);
    AmountFrom(t, a, bal.body);
    DirectionFrom(t, b);
    DerivesCat(AmountBody, Direction, t, false, a, b, c);
    DerivesGroup(5, Cat(AmountBody, Direction), t, false, a, c);
    DerivesCat(Blanks, Group(5, Cat(AmountBody, Direction)), t, false, st, a, State(bal.end, st.caps[5 := bal.Whole()]));
  }

  lemma CreditTailFrom(t: string, st: State, credit: Option<Token>, bal: Token)
    requires BalanceAt(t, bal)
    requires credit.Some? ==>
      credit.value.start == st.pos && CreditAt(t, credit.value) && Gap(t, credit.value.end, bal.start, 1)
    requires credit.None? ==> Gap(t, st.pos, bal.start, 1)
    ensures Derives(CreditTail, t, false, st, State(bal.end, Put(st.caps, 4, credit)[5 := bal.Whole()]))
  {
    var mid := State(if credit.Some? then credit.value.end else st.pos, Put(st.caps, 4, credit));
    if credit.Some? {
      var c := credit.value;
      AmountFrom(t, st, c.body);
      DerivesGroup(4, AmountBody, t, false, st, State(c.body, st.caps));
    }
    DerivesOpt(Group(4, AmountBody), t, false, st, mid);
    BalanceTailFrom(t, mid, bal);
    DerivesCat(Opt(Group(4, AmountBody)), BalanceTail, t, false, st, mid, State(bal.end, mid.caps[5 := bal.Whole()]));
  }

  lemma CreditSlotFrom(t: string, st: State, credit: Option<Token>, bal: Token)
    requires CreditPart(t, st.pos, credit, bal, 1)
    ensures Derives(CreditSlot, t, false, st, State(bal.end, Put(st.caps, 4, credit)[5 := bal.Whole()]))
  {
    var j := if credit.Some? then credit.value.start else st.pos + 1;
    if credit.None? {
      GapSplit(t, st.pos, bal.start, 1);
    }
    BlanksFrom(t, st, j);
    CreditTailFrom(t, State(j, st.caps), credit, bal);
    DerivesCat(Blanks, CreditTail, t, false, st, State(j, st.caps), State(bal.end, Put(st.caps, 4, credit)[5 := bal.Whole()]));
  }

  /** From `from`, `k + 1` blank runs, a credit and a balance are one blank
      and the rest from the next index. */
  lemma CreditPartNarrow(t: string, from: nat, credit: Option<Token>, bal: Token, k: nat)
    requires CreditPart(t, from, credit, bal, k + 1)
    ensures Gap(t, from, from + 1, 1) && CreditPart(t, from + 1, credit, bal, k)
  {
    match credit
    case Some(c) => GapSplit(t, from, c.start, k);
    case None => GapSplit(t, from, bal.start, k + 1);
  }

  lemma DebitTailFrom(t: string, st: State, debit: Option<Token>, credit: Option<Token>, bal: Token)
    requires debit.Some? ==>
      debit.value.start == st.pos && DebitAt(t, debit.value) && CreditPart(t, debit.value.end, credit, bal, 1)
    requires debit.None? ==> CreditPart(t, st.pos, credit, bal, 1)
    ensures Derives(DebitTail, t, false, st, State(bal.end, AmountGroups(st.caps, debit, credit, bal)))
  {
    var slot := Group(3, Cat(AmountBody, Opt(Direction)));
    var mid := State(if debit.Some? then debit.value.end else st.pos, Put(st.caps, 3, debit));
    if debit.Some? {
      var d := debit.value;
      var a, b := State(d.body, st.caps), State(d.end, st.caps);
      AmountFrom(t, st, d.body);
      if d.end == d.body + 2 {
        DirectionFrom(t, a);
      }
      DerivesOpt(Direction, t, false, a, b);
      DerivesCat(AmountBody, Opt(Direction), t, false, st, a, b);
      DerivesGroup(3, Cat(AmountBody, Opt(Direction)), t, false, st, b);
    }
    DerivesOpt(slot, t, false, st, mid);
    CreditSlotFrom(t, mid, credit, bal);
    DerivesCat(Opt(slot), CreditSlot, t, false, st, mid, State(bal.end, AmountGroups(st.caps, debit, credit, bal)));
  }

  lemma DebitSlotFrom(t: string, st: State, debit: Option<Token>, credit: Option<Token>, bal: Token)
    requires AmountsPart(t, st.pos, debit, credit, bal)
    ensures Derives(DebitSlot, t, false, st, State(bal.end, AmountGroups(st.caps, debit, credit, bal)))
  {
    var j := if debit.Some? then debit.value.start else st.pos + 1;
    if debit.None? {
      CreditPartNarrow(t, st.pos, credit, bal, 1);
    }
    BlanksFrom(t, st, j);
    DebitTailFrom(t, State(j, st.caps), debit, credit, bal);
    DerivesCat(Blanks, DebitTail, t, false, st, State(j, st.caps), State(bal.end, AmountGroups(st.caps, debit, credit, bal)));
  }

  /** A description with no line break, then the amounts. */
  lemma DescTailFrom(t: string, y: State, l: Layout)
    requires y.pos == l.desc.start && l.desc.start <= l.desc.end <= |t|
    requires forall p :: l.desc.start <= p < l.desc.end ==> t[p] != '\n'
    requires AmountsPart(t, l.desc.end, l.debit, l.credit, l.balance)
    ensures Derives(DescTail, t, false, y,
      State(l.balance.end, AmountGroups(y.caps[2 := l.desc], l.debit, l.credit, l.balance)))
  {
    var e := l.desc.end;
    var mid := State(e, y.caps[2 := l.desc]);
    var out := State(l.balance.end, AmountGroups(mid.caps, l.debit, l.credit, l.balance));
    DerivesRepeat(AnyChar, 0, None, false, t, false, y, e);
    DerivesGroup(2, Repeat(AnyChar, 0, None, false), t, false, y, State(e, y.caps));
    DebitSlotFrom(t, mid, l.debit, l.credit, l.balance);
    DerivesCat(Group(2, Repeat(AnyChar, 0, None, false)), DebitSlot, t, false, y, mid, out);
  }

  lemma DescSlotFrom(t: string, l: Layout)
    requires AfterDate(t, l)
    ensures Derives(DescSlot, t, false, State(l.start + 11, map[1 := Span(l.start, l.start + 11)]),
      State(l.balance.end, Groups(l)))
  {
    var caps := map[1 := Span(l.start, l.start + 11)];
    var st, y := State(l.start + 11, caps), State(l.desc.start, caps);
    BlanksFrom(t, st, l.desc.start);
    DescTailFrom(t, y, l);
    LayoutGroups(l, caps, AmountGroups(caps[2 := l.desc], l.debit, l.credit, l.balance));
    DerivesCat(Blanks, DescTail, t, false, st, y, State(l.balance.end, Groups(l)));
  }

  lemma YearFrom(t: string, i: nat, c: map<nat, Span>)
    requires DateTokenAt(t, i)
    ensures Derives(Cat(Lit("-"), Digits(4)), t, false, State(i + 6, c), State(i + 11, c))
  {
    DerivesRepeat(Digit, 4, Some(4), true, t, false, State(i + 7, c), i + 11);
    CharStartsAt(t, i + 6, '-');
    DerivesLit("-", t, false, State(i + 6, c));
    DerivesCat(Lit("-"), Digits(4), t, false, State(i + 6, c), State(i + 7, c), State(i + 11, c));
  }

  lemma MonthFrom(t: string, i: nat, c: map<nat, Span>)
    requires DateTokenAt(t, i)
    ensures Derives(Cat(Lit("-"), Cat(Repeat(Letter, 3, Some(3), true), Cat(Lit("-"), Digits(4)))), t, false,
      State(i + 2, c), State(i + 11, c))
  {
    var letters := Repeat(Letter, 3, Some(3), true);
    var year := Cat(Lit("-"), Digits(4));
    YearFrom(t, i, c);
    DerivesRepeat(Letter, 3, Some(3), true, t, false, State(i + 3, c), i + 6);
    DerivesCat(letters, year, t, false, State(i + 3, c), State(i + 6, c), State(i + 11, c));
    CharStartsAt(t, i + 2, '-');
    DerivesLit("-", t, false, State(i + 2, c));
    DerivesCat(Lit("-"), Cat(letters, year), t, false, State(i + 2, c), State(i + 3, c), State(i + 11, c));
  }

  lemma DateFrom(t: string, st: State)
    requires DateTokenAt(t, st.pos)
    ensures Derives(DateBody, t, false, st, State(st.pos + 11, st.caps))
  {
    var i, c := st.pos, st.caps;
    MonthFrom(t, i, c);
    DerivesRepeat(Digit, 2, Some(2), true, t, false, st, i + 2);
    DerivesCat(Digits(2), Cat(Lit("-"), Cat(Repeat(Letter, 3, Some(3), true), Cat(Lit("-"), Digits(4)))), t, false,
      st, State(i + 2, c), State(i + 11, c));
  }

  /** A ledger line derives the pattern, with the groups of its layout. */
  lemma LedgerFrom(t: string, l: Layout)
    requires Fits(t, l)
    ensures Derives(Ledger, t, false, State(l.start, map[]), State(l.balance.end, Groups(l)))
  {
    var st := State(l.start, map[]);
    var mid := State(l.start + 11, map[1 := Span(l.start, l.start + 11)]);
    DateFrom(t, st);
    DerivesGroup(1, DateBody, t, false, st, State(l.start + 11, map[]));
    DescSlotFrom(t, l);
    DerivesCat(Group(1, DateBody), DescSlot, t, false, st, mid, State(l.balance.end, Groups(l)));
  }

  /** A layout that fits spans at least 21 characters: the date, one blank,
      three blank runs' worth of blanks and a six-character balance. */
  lemma FitsLength(t: string, l: Layout)
    requires Fits(t, l)
    ensures l.start + 21 <= l.balance.end <= |t|
  {
  }

  /** `pattern.match(text, i)` succeeds exactly on a ledger line at `i`;
      this is the layout it reads. */
  lemma MatchLayout(t: string, i: nat) returns (l: Layout)
    requires i <= |t| && MatchAt(Ledger, t, false, i).Some?
    ensures l.start == i && Fits(t, l)
    ensures MatchAt(Ledger, t, false, i).value == Match(i, l.balance.end, Groups(l))
  {
    MatchDerives(Ledger, t, false, i);
    var m := MatchAt(Ledger, t, false, i).value;
    l := LedgerDerives(t, i, State(m.end, m.groups));
  }

  /** Every match moves the scan forward and stays inside the text. */
  lemma MatchAdvances(t: string, i: nat)
    requires i <= |t| && MatchAt(Ledger, t, false, i).Some?
    ensures i + 21 <= MatchAt(Ledger, t, false, i).value.end <= |t|
  {
    var l := MatchLayout(t, i);
    FitsLength(t, l);
  }

  // ------------------------------------------------------------ finditer

  /** `re.finditer(pattern, text)` from index `from`: the leftmost match,
      then the matches from its end on. No match is empty, so the scan never
      has to step over one. */
  function FindAll(t: string, from: nat): (ms: seq<Match>)
    requires from <= |t|
    ensures forall k :: 0 <= k < |ms| ==>
      from <= ms[k].start <= |t| && MatchAt(Ledger, t, false, ms[k].start) == Some(ms[k])
    decreases |t| - from
  {
    match Search(Ledger, t, false, from)
    case None => []
    case Some(m) =>
      MatchAdvances(t, m.start);
      [m] + FindAll(t, m.end)
  }

  /** One row of the result: the five columns of lines 50-56. */
  datatype Transaction = Transaction(date: string, description: string, debit: string, credit: string, balance: string)

  /** The row built from one match (lines 44-56): a group that did not
      take part reads as the empty string. */
  function Record(t: string, m: Match): (r: Transaction)
    requires MatchValid(t, m)
    ensures IsTrimmed(r.description)
    ensures ',' !in r.debit && ',' !in r.credit && ',' !in r.balance
  {
    Transaction(
      Captured(t, m, 1).GetOr(""),
      Strip(Captured(t, m, 2).GetOr("")),
      NormalizeDebit(Captured(t, m, 3).GetOr("")),
      NormalizeCredit(Captured(t, m, 4).GetOr("")),
      NormalizeBalance(Captured(t, m, 5).GetOr("")))
  }

  /** The rows of a run of matches, in order. */
  function Records(t: string, ms: seq<Match>): (rs: seq<Transaction>)
    requires forall k :: 0 <= k < |ms| ==> MatchValid(t, ms[k])
    ensures |rs| == |ms| && forall k :: 0 <= k < |ms| ==> rs[k] == Record(t, ms[k])
  {
    if ms == [] then []
    else
      var rest := Records(t, ms[1..]);
      assert forall k :: 1 <= k < |ms| ==> ms[1..][k - 1] == ms[k];
      [Record(t, ms[0])] + rest
  }

  /** What `extract_transactions(text)` returns. */
  function TransactionsOf(t: string): (rs: seq<Transaction>)
    ensures |rs| == |FindAll(t, 0)|
    ensures forall k :: 0 <= k < |rs| ==> rs[k] == Record(t, FindAll(t, 0)[k])
  {
    Records(t, FindAll(t, 0))
  }

  /** The rows of a longer prefix of the matches: one more row at the end. */
  lemma RecordsSnoc(t: string, ms: seq<Match>, k: nat)
    requires k < |ms| && forall j :: 0 <= j < |ms| ==> MatchValid(t, ms[j])
    ensures Records(t, ms[..k + 1]) == Records(t, ms[..k]) + [Record(t, ms[k])]
  {
    var a, b := Records(t, ms[..k + 1]), Records(t, ms[..k]) + [Record(t, ms[k])];
    assert |a| == |b|;
    forall j | 0 <= j < |a| ensures a[j] == b[j] {
      assert ms[..k + 1][j] == ms[j];
      if j < k { assert ms[..k][j] == ms[j]; }
    }
  }

  /** `extract_transactions` (lines 38-58): one row per match of the
      `finditer` scan, appended in the order the scan yields them. */
  method ExtractTransactions(text: string) returns (transactions: seq<Transaction>)
    ensures transactions == TransactionsOf(text)
  {
    var matches := FindAll(text, 0);
    transactions := [];
    for k := 0 to |matches|
      invariant transactions == Records(text, matches[..k])
    {
      RecordsSnoc(text, matches, k);
      transactions := transactions + [Record(text, matches[k])];
    }
    assert matches[..|matches|] == matches;
  }
}
