/**
  The amount shapes of the ledger pattern and the chained `str.replace`
  calls that turn a captured amount into the Debit, Credit and Balance
  columns (backend/app.py, lines 53-55).
 */
module Amounts {
  import opened Text

  /** `[\d,]+\.\d{2}`: digits with thousands separators, a point, two digits. */
  predicate IsAmount(s: string) {
    && |s| >= 4
    && (forall k :: 0 <= k < |s| - 3 ==> IsDigit(s[k]) || s[k] == ',')
    && s[|s| - 3] == '.' && IsDigit(s[|s| - 2]) && IsDigit(s[|s| - 1])
  }

  /** `\d*\.\d{2}`: an amount whose separators are gone. The integer part
      may be empty, because `[\d,]+` also accepts a run of commas only. */
  predicate IsPlain(s: string) {
    && |s| >= 3
    && AllDigits(s[..|s| - 3])
    && s[|s| - 3] == '.' && IsDigit(s[|s| - 2]) && IsDigit(s[|s| - 1])
  }

  /** The direction suffixes `(?:Dr|Cr)` may leave after an amount. */
  predicate IsDirection(d: string) {
    d == "Dr" || d == "Cr"
  }

  /** Line 53: `debit.replace('Dr', '').replace(',', '') if debit else ''`. */
  function NormalizeDebit(debit: string): (r: string)
    ensures ',' !in r && |r| <= |debit|
    ensures debit == "" ==> r == ""
  {
    if debit == "" then ""
    else
      RemoveCharGone(Remove(debit, "Dr"), ',');
      Remove(Remove(debit, "Dr"), ",")
  }

  /** Line 54: `credit.replace(',', '') if credit else ''`. */
  function NormalizeCredit(credit: string): (r: string)
    ensures ',' !in r && |r| <= |credit|
    ensures credit == "" ==> r == ""
  {
    if credit == "" then ""
    else
      RemoveCharGone(credit, ',');
      Remove(credit, ",")
  }

  /** Line 55: `balance.replace('Dr', '').replace('Cr', '').replace(',', '')`. */
  function NormalizeBalance(balance: string): (r: string)
    ensures ',' !in r && |r| <= |balance|
  {
    RemoveCharGone(Remove(Remove(balance, "Dr"), "Cr"), ',');
    Remove(Remove(Remove(balance, "Dr"), "Cr"), ",")
  }

  /** A point and two digits have no separator to drop. */
  lemma CentsKept(cents: string)
    requires |cents| == 3 && cents[0] == '.' && IsDigit(cents[1]) && IsDigit(cents[2])
    ensures Remove(cents, ",") == cents
  {
    RemoveNothing(cents, ",");
  }

  /** Dropping the separators of an amount keeps its digits, point and
      cents in order and leaves a plain amount. */
  lemma PlainOfAmount(body: string)
    requires IsAmount(body)
    ensures IsPlain(Remove(body, ","))
    ensures Remove(body, ",") == Remove(body[..|body| - 3], ",") + body[|body| - 3..]
  {
    var n := |body|;
    var init, cents := body[..n - 3], body[n - 3..];
    assert body == init + cents;
    RemoveCharAppend(init, cents, ',');
    CentsKept(cents);
    assert forall k :: 0 <= k < |init| ==> IsDigit(init[k]) || init[k] == ',';
    RemoveCharLeavesDigits(init, ',');
    var r := Remove(body, ",");
    assert r[..|r| - 3] == Remove(init, ",");
  }

  /** What is left of an amount after the separators go: digits and one
      point, and in particular no `D`, `C` or comma. */
  lemma PlainChars(s: string)
    requires IsPlain(s)
    ensures forall k :: 0 <= k < |s| ==> IsDigit(s[k]) || s[k] == '.'
  {
    forall k | 0 <= k < |s| ensures IsDigit(s[k]) || s[k] == '.' {
      if k < |s| - 3 { assert s[..|s| - 3][k] == s[k]; }
    }
  }

  lemma AmountChars(s: string)
    requires IsAmount(s)
    ensures forall k :: 0 <= k < |s| ==> IsDigit(s[k]) || s[k] == ',' || s[k] == '.'
  {
  }

  /** Removing `p` (one of `Dr`, `Cr`) from an amount followed by a suffix
      touches only the suffix. */
  lemma RemoveSuffixOnly(body: string, sfx: string, p: string)
    requires forall k :: 0 <= k < |body| ==> IsDigit(body[k]) || body[k] == ',' || body[k] == '.'
    requires p == "Dr" || p == "Cr"
    ensures Remove(body + sfx, p) == body + Remove(sfx, p)
  {
    RemoveSkips(body, sfx, p);
  }

  lemma SuffixRemovals()
    ensures Remove("Dr", "Dr") == "" && Remove("Cr", "Cr") == ""
    ensures Remove("Cr", "Dr") == "Cr" && Remove("Dr", "Cr") == "Dr"
    ensures Remove("", "Dr") == "" && Remove("", "Cr") == ""
    ensures Remove("Dr", ",") == "Dr" && Remove("Cr", ",") == "Cr"
  {
    assert StartsAt("Dr", 0, "Dr") && StartsAt("Cr", 0, "Cr");
    assert !StartsAt("Cr", 0, "Dr") && !StartsAt("Dr", 0, "Cr");
    assert "Cr"[1..] == "r" && "Dr"[1..] == "r";
    assert !StartsAt("r", 0, "Dr") && !StartsAt("r", 0, "Cr");
    RemoveNothing("Dr", ",");
    RemoveNothing("Cr", ",");
    RemoveNothing("r", "Dr");
    RemoveNothing("r", "Cr");
  }

  /** The Debit column of an amount with an optional direction suffix: the
      separators and a `Dr` go, a `Cr` stays. */
  lemma DebitOfAmount(body: string, sfx: string)
    requires IsAmount(body)
    requires sfx == "" || IsDirection(sfx)
    ensures NormalizeDebit(body + sfx) == Remove(body, ",") + (if sfx == "Cr" then "Cr" else "")
  {
    AmountChars(body);
    RemoveSuffixOnly(body, sfx, "Dr");
    SuffixRemovals();
    var cut := Remove(sfx, "Dr");
    assert cut == (if sfx == "Cr" then "Cr" else "");
    RemoveCharAppend(body, cut, ',');
    assert Remove(cut, ",") == cut;
  }

  /** The Credit column of an amount: only the separators go. */
  lemma CreditOfAmount(body: string)
    requires IsAmount(body)
    ensures NormalizeCredit(body) == Remove(body, ",")
    ensures IsPlain(NormalizeCredit(body))
  {
    PlainOfAmount(body);
  }

  /** The Balance column of an amount with its suffix: separators and the
      suffix go, leaving a plain amount. */
  lemma BalanceOfAmount(body: string, sfx: string)
    requires IsAmount(body)
    requires IsDirection(sfx)
    ensures NormalizeBalance(body + sfx) == Remove(body, ",")
    ensures IsPlain(NormalizeBalance(body + sfx))
  {
    AmountChars(body);
    SuffixRemovals();
    RemoveSuffixOnly(body, sfx, "Dr");
    var once := Remove(sfx, "Dr");
    RemoveSuffixOnly(body, once, "Cr");
    assert Remove(once, "Cr") == "";
    assert body + "" == body;
    PlainOfAmount(body);
  }

  /** On amount-shaped text, removing a direction marker and removing the
      separators commute. */
  lemma DirectionAndSeparatorsCommute(body: string, sfx: string, p: string)
    requires IsAmount(body)
    requires sfx == "" || IsDirection(sfx)
    requires IsDirection(p)
    ensures Remove(Remove(body + sfx, p), ",") == Remove(Remove(body + sfx, ","), p)
  {
    AmountChars(body);
    SuffixRemovals();
    PlainOfAmount(body);
    var plain := Remove(body, ",");
    PlainChars(plain);
    var cut := Remove(sfx, p);
    assert Remove(cut, ",") == cut;
    assert Remove(sfx, ",") == sfx;
    // one order
    RemoveSuffixOnly(body, sfx, p);
    RemoveCharAppend(body, cut, ',');
    // the other order
    RemoveCharAppend(body, sfx, ',');
    RemoveSuffixOnly(plain, sfx, p);
  }

  /** On arbitrary text the two orders differ. */
  lemma RemovalOrderMatters()
    ensures Remove(Remove("D,r", "Dr"), ",") == "Dr"
    ensures Remove(Remove("D,r", ","), "Dr") == ""
  {
    assert "D,r"[0..2][1] == ',';
    assert !StartsAt("D,r", 0, "Dr");
    assert "D,r"[1..] == ",r";
    assert !StartsAt(",r", 0, "Dr");
    assert ",r"[1..] == "r";
    RemoveNothing("r", "Dr");
    assert Remove("D,r", "Dr") == "D,r";
    assert StartsAt(",r", 0, ",");
    RemoveNothing("r", ",");
    RemoveNothing("D", ",");
    assert Remove("D,r", ",") == "Dr" by {
      assert !StartsAt("D,r", 0, ",");
      assert Remove("D,r", ",") == ['D'] + Remove(",r", ",");
      assert Remove(",r", ",") == Remove("r", ",");
    }
    SuffixRemovals();
  }
}
