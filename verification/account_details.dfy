/**
  `extract_account_details` (backend/app.py, lines 20-36): six labelled
  fields, each found by one `re.search` with DOTALL over the whole text; the
  first match of a field's pattern gives its value, its group 1 stripped of
  surrounding whitespace. A field whose pattern does not match is absent.
 */
module AccountDetails {
  import opened Options
  import opened Text
  import opened Regex

  datatype Field = AccountNo | AccountName | Address | OpenDate | SanctionLimit | InterestRate

  /** The fields in the order of the `patterns` dictionary (lines 22-29). */
  const Fields: seq<Field> := [AccountNo, AccountName, Address, OpenDate, SanctionLimit, InterestRate]

  const FieldKeys: set<string> :=
    {"account_no", "account_name", "address", "open_date", "sanction_limit", "interest_rate"}

  /** The dictionary key of a field. */
  function Key(f: Field): (k: string)
    ensures k in FieldKeys
  {
    match f
    case AccountNo => "account_no"
    case AccountName => "account_name"
    case Address => "address"
    case OpenDate => "open_date"
    case SanctionLimit => "sanction_limit"
    case InterestRate => "interest_rate"
  }

  /** No two fields share a key (their keys even differ in length). */
  lemma KeyInjective()
    ensures forall f, g :: Key(f) == Key(g) ==> f == g
  {
    forall f, g | Key(f) == Key(g) ensures f == g {
      assert |Key(f)| == |Key(g)|;
    }
  }

  /** The literal label each pattern starts with. */
  function Label(f: Field): string {
    match f
    case AccountNo => "Account No"
    case AccountName => "A/C Name"
    case Address => "Address"
    case OpenDate => "Open Date"
    case SanctionLimit => "Sanction Limit"
    case InterestRate => "Interest Rate"
  }

  /** `\s*` */
  const Spaces: Regex := Repeat(Space, 0, None, true)

  /** `label\s*:\s*value` */
  function Labelled(name: string, value: Regex): Regex {
    Cat(Lit(name), Cat(Spaces, Cat(Lit(":"), Cat(Spaces, value))))
  }

  /** `(\d+)` */
  const DigitsValue: Regex := Group(1, Repeat(Digit, 1, None, true))

  /** `(.*?)stop` */
  function UpTo(stop: string): Regex {
    Cat(Group(1, Repeat(AnyChar, 0, None, false)), Lit(stop))
  }

  /** `(\d{2}-\d{2}-\d{4})` */
  const DateValue: Regex :=
    Group(1, Cat(Digits(2), Cat(Lit("-"), Cat(Digits(2), Cat(Lit("-"), Digits(4))))))

  /** What follows the colon in each pattern. */
  function ValuePattern(f: Field): Regex {
    match f
    case AccountNo => DigitsValue
    case AccountName => UpTo("\n")
    case Address => UpTo("\nCity")
    case OpenDate => DateValue
    case SanctionLimit => UpTo("\n")
    case InterestRate => UpTo("\n")
  }

  /** The patterns of lines 23-28. */
  function Pattern(f: Field): Regex {
    Labelled(Label(f), ValuePattern(f))
  }

  /** Line 32: `re.search(pattern, text, re.DOTALL)`. */
  function FieldMatch(text: string, f: Field): Option<Match> {
    Search(Pattern(f), text, true, 0)
  }

  /** Line 34: the stored value, `match.group(1).strip()`, or `None` when
      the pattern does not match. */
  function Lookup(text: string, f: Field): (v: Option<string>)
    ensures v.Some? <==> FieldMatch(text, f).Some?
    ensures v.Some? ==> IsTrimmed(v.value)
  {
    match FieldMatch(text, f)
    case None => None
    case Some(m) => Some(Strip(Captured(text, m, 1).GetOr("")))
  }

  /** The dictionary after the fields `fs` have been looked up in turn with
      `look`: each field that has a value stores it under its key. */
  function DetailsOver(look: Field -> Option<string>, fs: seq<Field>): (d: map<string, string>)
    ensures d.Keys <= FieldKeys
  {
    if fs == [] then map[]
    else
      var d := DetailsOver(look, fs[..|fs| - 1]);
      var f := fs[|fs| - 1];
      match look(f)
      case None => d
      case Some(v) => d[Key(f) := v]
  }

  /** The dictionary the extractor returns. */
  function Details(text: string): (d: map<string, string>)
    ensures d.Keys <= FieldKeys
  {
    DetailsOver(f => Lookup(text, f), Fields)
  }

  lemma InInitOrLast(fs: seq<Field>, f: Field)
    requires fs != []
    ensures f in fs <==> f in fs[..|fs| - 1] || f == fs[|fs| - 1]
  {
    assert fs == fs[..|fs| - 1] + [fs[|fs| - 1]];
  }

  /** A field's key is present after looking up `fs` exactly when the field
      is among them and has a value, and then it holds that value: no other
      field's entry overwrites it. */
  lemma {:induction false} DetailsOverEntry(look: Field -> Option<string>, fs: seq<Field>, f: Field)
    ensures Key(f) in DetailsOver(look, fs) <==> f in fs && look(f).Some?
    ensures Key(f) in DetailsOver(look, fs) ==> DetailsOver(look, fs)[Key(f)] == look(f).value
  {
    if fs != [] {
      DetailsOverEntry(look, fs[..|fs| - 1], f);
      KeyInjective();
      InInitOrLast(fs, f);
    }
  }

  /** When every value is trimmed, every stored value is. */
  lemma {:induction false} DetailsOverTrimmed(look: Field -> Option<string>, fs: seq<Field>)
    requires forall f :: look(f).Some? ==> IsTrimmed(look(f).value)
    ensures forall k :: k in DetailsOver(look, fs) ==> IsTrimmed(DetailsOver(look, fs)[k])
  {
    if fs != [] {
      DetailsOverTrimmed(look, fs[..|fs| - 1]);
    }
  }

  /** Where no field among `fs` has a value, nothing is stored. */
  lemma {:induction false} DetailsOverEmpty(look: Field -> Option<string>, fs: seq<Field>)
    requires forall f :: f in fs ==> look(f).None?
    ensures DetailsOver(look, fs) == map[]
  {
    if fs != [] {
      InInitOrLast(fs, fs[|fs| - 1]);
      forall f | f in fs[..|fs| - 1] ensures f in fs { InInitOrLast(fs, f); }
      DetailsOverEmpty(look, fs[..|fs| - 1]);
    }
  }

  /** Looking up one more field adds its entry, if it has one. */
  lemma DetailsOverStep(look: Field -> Option<string>, fs: seq<Field>, i: nat)
    requires i < |fs|
    ensures DetailsOver(look, fs[..i + 1]) ==
      match look(fs[i])
      case None => DetailsOver(look, fs[..i])
      case Some(v) => DetailsOver(look, fs[..i])[Key(fs[i]) := v]
  {
    assert fs[..i + 1][..i] == fs[..i];
  }

  /** Lines 20-36: the loop over the six patterns, filling `details`. */
  method ExtractAccountDetails(text: string) returns (details: map<string, string>)
    ensures details == Details(text)
  {
    ghost var look := f => Lookup(text, f);
    details := map[];
    for i := 0 to |Fields|
      invariant details == DetailsOver(look, Fields[..i])
    {
      var f := Fields[i];
      DetailsOverStep(look, Fields, i);
      var m := Search(Pattern(f), text, true, 0);
      if m.Some? {
        var group := Captured(text, m.value, 1);
        assert look(f) == Some(Strip(group.GetOr("")));
        details := details[Key(f) := Strip(group.GetOr(""))];
      } else {
        assert look(f) == None;
      }
    }
    assert Fields[..|Fields|] == Fields;
  }

  // ------------------------------------------------------------- the head

  /** The first success of `\s*:\s*value` from `st`: whitespace up to a
      colon, whitespace after it up to `y`, and the rest is the first
      success of `value` from `y`. */
  lemma ColonFirst(value: Regex, t: string, st: State) returns (y: State, colon: nat)
    requires Valid(t, st) && st.caps == map[]
    requires Successes(Cat(Spaces, Cat(Lit(":"), Cat(Spaces, value))), t, true, st) != []
    ensures st.pos <= colon < y.pos <= |t| && t[colon] == ':'
    ensures forall p :: st.pos <= p < colon ==> IsSpace(t[p])
    ensures forall p :: colon < p < y.pos ==> IsSpace(t[p])
    ensures Valid(t, y) && y.caps == map[]
    ensures Successes(value, t, true, y) != []
    ensures Successes(Cat(Spaces, Cat(Lit(":"), Cat(Spaces, value))), t, true, st)[0] == Successes(value, t, true, y)[0]
  {
    var m1 := RepeatFirst(Space, 0, None, true, Cat(Lit(":"), Cat(Spaces, value)), t, true, st);
    colon := m1.pos;
    LitFirst(":", Cat(Spaces, value), t, true, m1);
    y := RepeatFirst(Space, 0, None, true, value, t, true, State(colon + 1, map[]));
  }

  /** The first success of `label\s*:\s*value` at `i`: the label sits at
      `i`, whitespace and a colon follow it, whitespace follows the colon up
      to `y`, and the rest is the first success of `value` from `y`. */
  lemma LabelledFirst(name: string, value: Regex, t: string, i: nat) returns (y: State, colon: nat)
    requires i <= |t|
    requires Successes(Labelled(name, value), t, true, State(i, map[])) != []
    ensures StartsAt(t, i, name)
    ensures i + |name| <= colon < y.pos <= |t| && t[colon] == ':'
    ensures forall p :: i + |name| <= p < colon ==> IsSpace(t[p])
    ensures forall p :: colon < p < y.pos ==> IsSpace(t[p])
    ensures Valid(t, y) && y.caps == map[]
    ensures Successes(value, t, true, y) != []
    ensures Successes(Labelled(name, value), t, true, State(i, map[]))[0] == Successes(value, t, true, y)[0]
  {
    LitFirst(name, Cat(Spaces, Cat(Lit(":"), Cat(Spaces, value))), t, true, State(i, map[]));
    y, colon := ColonFirst(value, t, State(i + |name|, map[]));
  }

  /** The first success of `label\s*:\s*value` at `i`, without the
      whitespace: the label sits at `i`, and from some later `y` the rest is
      the first success of `value`. */
  lemma LabelledHead(name: string, value: Regex, t: string, i: nat) returns (y: State)
    requires i <= |t|
    requires Successes(Labelled(name, value), t, true, State(i, map[])) != []
    ensures StartsAt(t, i, name) && i + |name| < y.pos
    ensures Valid(t, y) && y.caps == map[]
    ensures Successes(value, t, true, y) != []
    ensures Successes(Labelled(name, value), t, true, State(i, map[]))[0] == Successes(value, t, true, y)[0]
  {
    var colon;
    y, colon := LabelledFirst(name, value, t, i);
  }

  /** The first match of a field's pattern: its groups are those of the
      first success of the field's value pattern from some `y` past the
      label, the colon and the whitespace. */
  lemma FieldHead(text: string, f: Field) returns (y: State)
    requires FieldMatch(text, f).Some?
    ensures FieldMatch(text, f).value.start + |Label(f)| < y.pos
    ensures Valid(text, y) && y.caps == map[]
    ensures Successes(ValuePattern(f), text, true, y) != []
    ensures FieldMatch(text, f).value.groups == Successes(ValuePattern(f), text, true, y)[0].caps
    ensures FieldMatch(text, f).value.end == Successes(ValuePattern(f), text, true, y)[0].pos
  {
    var m := FieldMatch(text, f).value;
    y := LabelledHead(Label(f), ValuePattern(f), text, m.start);
  }

  /** The first success of `(\d+)` from `y` captures the whole digit run. */
  lemma DigitsFirst(t: string, y: State)
    requires Valid(t, y)
    requires Successes(DigitsValue, t, true, y) != []
    ensures var out := Successes(DigitsValue, t, true, y)[0];
      && y.pos < out.pos
      && out.caps == y.caps[1 := Span(y.pos, out.pos)]
      && (forall p :: y.pos <= p < out.pos ==> IsDigit(t[p]))
      && (out.pos == |t| || !IsDigit(t[out.pos]))
  {
    var n := Run(t, y.pos, Digit, true, None);
    assert n >= 1;
    var tries := Tries(y.pos + 1, y.pos + n, y.caps, true);
    assert tries[0] == State(y.pos + n, y.caps);
    var out := Successes(DigitsValue, t, true, y)[0];
    assert out == Close(1, y.pos, tries)[0];
  }

  /** The first success of `(.*?)stop` from `y` (with DOTALL) ends its group
      at the first occurrence of `stop` at or after `y`. */
  lemma UpToFirst(stop: string, t: string, y: State)
    requires Valid(t, y)
    requires Successes(UpTo(stop), t, true, y) != []
    ensures var out := Successes(UpTo(stop), t, true, y)[0];
      && 1 in out.caps && out.caps[1].start == y.pos
      && StartsAt(t, out.caps[1].end, stop)
      && out.pos == out.caps[1].end + |stop|
      && (forall p :: y.pos <= p < out.caps[1].end ==> !StartsAt(t, p, stop))
  {
    var mid := LazyGroupFirst(1, AnyChar, Lit(stop), t, true, y);
    forall p | y.pos <= p < mid.pos ensures !StartsAt(t, p, stop) {
      assert Successes(Lit(stop), t, true, State(p, y.caps[1 := Span(y.pos, p)])) == [];
    }
  }

  /** `\d{2}-\d{2}-\d{4}` as a predicate on text. */
  predicate IsNumericDate(s: string) {
    && |s| == 10
    && IsDigit(s[0]) && IsDigit(s[1]) && s[2] == '-'
    && IsDigit(s[3]) && IsDigit(s[4]) && s[5] == '-'
    && IsDigit(s[6]) && IsDigit(s[7]) && IsDigit(s[8]) && IsDigit(s[9])
  }

  /** `-\d{4}` */
  const YearTail: Regex := Cat(Lit("-"), Digits(4))

  /** `-\d{2}-\d{4}` */
  const MonthTail: Regex := Cat(Lit("-"), Cat(Digits(2), YearTail))

  /** `-\d{4}` at index `i` of `t`. */
  predicate YearAt(t: string, i: nat) {
    i + 5 <= |t| && t[i] == '-' && forall p :: i + 1 <= p < i + 5 ==> IsDigit(t[p])
  }

  /** `-\d{2}-\d{4}` at index `i` of `t`. */
  predicate MonthAt(t: string, i: nat) {
    i + 8 <= |t| && t[i] == '-' && IsDigit(t[i + 1]) && IsDigit(t[i + 2]) && YearAt(t, i + 3)
  }

  /** The first success of `-\d{4}` from `st`. */
  lemma YearTailFirst(t: string, st: State)
    requires Valid(t, st)
    requires Successes(YearTail, t, true, st) != []
    ensures Successes(YearTail, t, true, st)[0] == State(st.pos + 5, st.caps)
    ensures YearAt(t, st.pos)
  {
    LitFirst("-", Digits(4), t, true, st);
    RepeatHead(Digit, 4, Some(4), true, t, true, State(st.pos + 1, st.caps));
  }

  /** The first success of `-\d{2}-\d{4}` from `st`. */
  lemma MonthTailFirst(t: string, st: State)
    requires Valid(t, st)
    requires Successes(MonthTail, t, true, st) != []
    ensures Successes(MonthTail, t, true, st)[0] == State(st.pos + 8, st.caps)
    ensures MonthAt(t, st.pos)
  {
    LitFirst("-", Cat(Digits(2), YearTail), t, true, st);
    var a := RepeatFirst(Digit, 2, Some(2), true, YearTail, t, true, State(st.pos + 1, st.caps));
    assert a == State(st.pos + 3, st.caps);
    assert InClass(Digit, true, t[st.pos + 1]) && InClass(Digit, true, t[st.pos + 2]);
    YearTailFirst(t, State(st.pos + 3, st.caps));
  }

  /** The first success of `\d{2}-\d{2}-\d{4}` from `y` ends ten
      characters on. */
  lemma DateBodyFirst(t: string, y: State)
    requires Valid(t, y)
    requires Successes(Cat(Digits(2), MonthTail), t, true, y) != []
    ensures Successes(Cat(Digits(2), MonthTail), t, true, y)[0] == State(y.pos + 10, y.caps)
  {
    var a := RepeatFirst(Digit, 2, Some(2), true, MonthTail, t, true, y);
    MonthTailFirst(t, a);
  }

  /** `\d{2}-\d{2}-\d{4}` at index `i` of `t`. */
  predicate DateAt(t: string, i: nat) {
    i + 10 <= |t| && IsDigit(t[i]) && IsDigit(t[i + 1]) && MonthAt(t, i + 2)
  }

  /** Where `\d{2}-\d{2}-\d{4}` matches, two digits come first and
      `-\d{2}-\d{4}` matches after them. */
  lemma TwoDigitsThenMonth(t: string, y: State)
    requires Valid(t, y)
    requires Successes(Cat(Digits(2), MonthTail), t, true, y) != []
    ensures y.pos + 2 <= |t| && IsDigit(t[y.pos]) && IsDigit(t[y.pos + 1])
    ensures Successes(MonthTail, t, true, State(y.pos + 2, y.caps)) != []
  {
    var a := RepeatFirst(Digit, 2, Some(2), true, MonthTail, t, true, y);
    assert a == State(y.pos + 2, y.caps);
    assert InClass(Digit, true, t[y.pos]) && InClass(Digit, true, t[y.pos + 1]);
  }

  /** Where `\d{2}-\d{2}-\d{4}` matches at all, ten characters of that
      form follow. */
  lemma DateBodyShape(t: string, y: State)
    requires Valid(t, y)
    requires Successes(Cat(Digits(2), MonthTail), t, true, y) != []
    ensures DateAt(t, y.pos)
  {
    TwoDigitsThenMonth(t, y);
    MonthTailFirst(t, State(y.pos + 2, y.caps));
  }

  /** The first success of `(\d{2}-\d{2}-\d{4})` from `y` captures the
      next ten characters. */
  lemma DateFirst(t: string, y: State)
    requires Valid(t, y)
    requires Successes(DateValue, t, true, y) != []
    ensures Successes(DateValue, t, true, y)[0] == State(y.pos + 10, y.caps[1 := Span(y.pos, y.pos + 10)])
  {
    assert DateValue == Group(1, Cat(Digits(2), MonthTail));
    GroupFirst(1, Cat(Digits(2), MonthTail), t, true, y);
    DateBodyFirst(t, y);
  }

  /** Where `(\d{2}-\d{2}-\d{4})` matches from `y`, ten characters of
      that form follow. */
  lemma DateShape(t: string, y: State)
    requires Valid(t, y)
    requires Successes(DateValue, t, true, y) != []
    ensures DateAt(t, y.pos)
  {
    assert DateValue == Group(1, Cat(Digits(2), MonthTail));
    GroupFirst(1, Cat(Digits(2), MonthTail), t, true, y);
    DateBodyShape(t, y);
  }

  /** Reads `IsNumericDate` off the characters of the text. */
  lemma NumericDateAt(t: string, i: nat)
    requires DateAt(t, i)
    ensures IsNumericDate(t[i..i + 10])
  {
    assert IsDigit(t[i + 6]) && IsDigit(t[i + 7]) && IsDigit(t[i + 8]) && IsDigit(t[i + 9]);
  }

  /** The text of a capture in which `stop` never starts, stripped, does not
      contain `stop`. */
  lemma CaptureAvoids(text: string, g: Span, stop: string)
    requires |stop| > 0 && g.start <= g.end <= |text|
    requires forall p :: g.start <= p < g.end ==> !StartsAt(text, p, stop)
    ensures !Occurs(Strip(text[g.start..g.end]), stop)
  {
    var capture := text[g.start..g.end];
    if Occurs(Strip(capture), stop) {
      var j: nat :| StartsAt(Strip(capture), j, stop);
      StripStartsAt(capture, j, stop);
      SliceStartsAt(text, g.start, g.end, LeadingSpace(capture) + j, stop);
      assert false;
    }
  }

  // ------------------------------------------------------- the properties

  /** The first match of a field's pattern starts with the field's label,
      and it always sets group 1. */
  lemma FieldMatchLabel(text: string, f: Field)
    requires FieldMatch(text, f).Some?
    ensures StartsAt(text, FieldMatch(text, f).value.start, Label(f))
    ensures 1 in FieldMatch(text, f).value.groups
  {
    var m := FieldMatch(text, f).value;
    var y := LabelledHead(Label(f), ValuePattern(f), text, m.start);
    match f
    case AccountNo => DigitsFirst(text, y);
    case OpenDate => DateFirst(text, y);
    case AccountName => UpToFirst("\n", text, y);
    case Address => UpToFirst("\nCity", text, y);
    case SanctionLimit => UpToFirst("\n", text, y);
    case InterestRate => UpToFirst("\n", text, y);
  }

  /** `Fields` lists every field. */
  lemma EveryField(f: Field)
    ensures f in Fields
  {
    match f
    case AccountNo => assert Fields[0] == f;
    case AccountName => assert Fields[1] == f;
    case Address => assert Fields[2] == f;
    case OpenDate => assert Fields[3] == f;
    case SanctionLimit => assert Fields[4] == f;
    case InterestRate => assert Fields[5] == f;
  }

  /** A key is present exactly when its field's pattern matches somewhere,
      and then it holds that field's value. */
  lemma DetailsKeys(text: string, f: Field)
    ensures Key(f) in Details(text) <==> exists i :: 0 <= i <= |text| && MatchAt(Pattern(f), text, true, i).Some?
    ensures Key(f) in Details(text) ==> Details(text)[Key(f)] == Lookup(text, f).value
  {
    DetailsOverEntry(f => Lookup(text, f), Fields, f);
    EveryField(f);
    if FieldMatch(text, f).Some? {
      var m := FieldMatch(text, f).value;
      assert MatchAt(Pattern(f), text, true, m.start).Some?;
    }
  }

  /** A field has a value only where its label occurs. */
  lemma FieldNeedsLabel(text: string, f: Field)
    ensures Lookup(text, f).Some? ==> Occurs(text, Label(f))
  {
    if FieldMatch(text, f).Some? {
      FieldMatchLabel(text, f);
      var i: nat := FieldMatch(text, f).value.start;
      assert StartsAt(text, i, Label(f));
    }
  }

  /** A text in which no label occurs has no account details at all; in
      particular the empty text has none. */
  lemma DetailsWithoutLabels(text: string)
    requires forall f :: !Occurs(text, Label(f))
    ensures Details(text) == map[]
  {
    forall f ensures Lookup(text, f).None? {
      FieldNeedsLabel(text, f);
    }
    DetailsOverEmpty(f => Lookup(text, f), Fields);
  }

  lemma DetailsOfEmptyText()
    ensures Details("") == map[]
  {
    forall f ensures !Occurs("", Label(f)) {
      assert |Label(f)| > 0;
    }
    DetailsWithoutLabels("");
  }

  /** Every stored value has no leading or trailing whitespace. */
  lemma DetailsTrimmed(text: string)
    ensures forall k :: k in Details(text) ==> IsTrimmed(Details(text)[k])
  {
    DetailsOverTrimmed(f => Lookup(text, f), Fields);
  }

  /** `account_no` is the whole run of digits after `Account No`, the colon
      and any whitespace: non-empty, digits only, and no digit follows it. */
  lemma AccountNoIsDigitRun(text: string)
    requires FieldMatch(text, AccountNo).Some?
    ensures var m := FieldMatch(text, AccountNo).value;
      && 1 in m.groups
      && var g := m.groups[1];
      && g.start < g.end <= |text|
      && AllDigits(text[g.start..g.end])
      && (g.end == |text| || !IsDigit(text[g.end]))
      && Lookup(text, AccountNo) == Some(text[g.start..g.end])
  {
    var m := FieldMatch(text, AccountNo).value;
    var y := FieldHead(text, AccountNo);
    DigitsFirst(text, y);
    var g := m.groups[1];
    var v := text[g.start..g.end];
    assert AllDigits(v) by {
      forall k | 0 <= k < |v| ensures IsDigit(v[k]) { assert v[k] == text[g.start + k]; }
    }
    StripTrimmed(v);
  }

  /** Where `Open Date` matches, its value is the stripped ten characters
      after the colon and the whitespace, which have the form of a date. */
  lemma OpenDateCapture(text: string) returns (i: nat)
    requires FieldMatch(text, OpenDate).Some?
    ensures FieldMatch(text, OpenDate).value.start + |Label(OpenDate)| < i
    ensures DateAt(text, i)
    ensures Lookup(text, OpenDate) == Some(Strip(text[i..i + 10]))
  {
    var y := FieldHead(text, OpenDate);
    DateFirst(text, y);
    DateShape(text, y);
    i := y.pos;
    var m := FieldMatch(text, OpenDate).value;
    assert m.groups[1] == Span(i, i + 10);
    assert Captured(text, m, 1) == Some(text[i..i + 10]);
  }

  /** `open_date` is exactly ten characters of the form `NN-NN-NNNN`. */
  lemma OpenDateShape(text: string)
    requires Lookup(text, OpenDate).Some?
    ensures IsNumericDate(Lookup(text, OpenDate).value)
  {
    var i := OpenDateCapture(text);
    NumericDateAt(text, i);
    NumericDateTrimmed(text[i..i + 10]);
  }

  /** A date has no surrounding whitespace, so `strip()` keeps it. */
  lemma NumericDateTrimmed(s: string)
    requires IsNumericDate(s)
    ensures Strip(s) == s
  {
    StripTrimmed(s);
  }

  /** The fields captured up to the next line break, `(.*?)\n`. */
  predicate IsLineField(f: Field) {
    f == AccountName || f == SanctionLimit || f == InterestRate
  }

  /** `account_name`, `sanction_limit` and `interest_rate` never contain a
      line break: the lazy group stops at the first one, even with DOTALL. */
  lemma LineFieldsSingleLine(text: string, f: Field)
    requires IsLineField(f)
    requires Lookup(text, f).Some?
    ensures '\n' !in Lookup(text, f).value
  {
    var m := FieldMatch(text, f).value;
    var y := FieldHead(text, f);
    assert ValuePattern(f) == UpTo("\n");
    UpToFirst("\n", text, y);
    CaptureAvoids(text, m.groups[1], "\n");
    CharOccurs(Lookup(text, f).value, '\n');
  }

  /** The `address` value never contains `\nCity`: the lazy group stops at
      the first one. */
  lemma AddressStopsAtCity(text: string)
    requires Lookup(text, Address).Some?
    ensures !Occurs(Lookup(text, Address).value, "\nCity")
  {
    var m := FieldMatch(text, Address).value;
    var y := FieldHead(text, Address);
    UpToFirst("\nCity", text, y);
    CaptureAvoids(text, m.groups[1], "\nCity");
  }

  /** Where a field that ends at a line break matches, its group ends at
      a line break after the label, and the match ends just past it. */
  lemma LineBreakAfter(text: string, f: Field) returns (e: nat)
    requires IsLineField(f)
    requires FieldMatch(text, f).Some?
    ensures StartsAt(text, e, "\n")
    ensures FieldMatch(text, f).value.start + |Label(f)| < e && e + 1 == FieldMatch(text, f).value.end
    ensures 1 in FieldMatch(text, f).value.groups && FieldMatch(text, f).value.groups[1].end == e
  {
    var m := FieldMatch(text, f).value;
    var y := FieldHead(text, f);
    assert ValuePattern(f) == UpTo("\n");
    UpToFirst("\n", text, y);
    var out := Successes(UpTo("\n"), text, true, y)[0];
    assert m.groups == out.caps;
    e := out.caps[1].end;
  }

  /** A text without a line break has none of the fields that end at one. */
  lemma LineFieldNeedsBreak(text: string, f: Field)
    requires IsLineField(f)
    ensures '\n' !in text ==> Lookup(text, f) == None
  {
    if FieldMatch(text, f).Some? {
      var e := LineBreakAfter(text, f);
      assert text[e..e + 1][0] == text[e] == '\n';
    }
  }

  /** `A/C Name:`, then only whitespace up to the line break that ends the
      text. */
  predicate IsBlankName(t: string, w: string) {
    && AllSpace(w)
    && |t| == 10 + |w|
    && t[..8] == "A/C Name" && t[8] == ':' && t[|t| - 1] == '\n'
    && forall k :: 0 <= k < |w| ==> t[9 + k] == w[k]
  }

  lemma BlankNameShape(w: string)
    requires AllSpace(w)
    ensures IsBlankName("A/C Name:" + w + "\n", w)
  {
    var t := "A/C Name:" + w + "\n";
    assert t[..8] == "A/C Name";
    assert forall k :: 0 <= k < |w| ==> t[9 + k] == w[k];
  }

  /** `\s*` runs from just after the colon to the final line break. */
  lemma BlankSpacesDerive(t: string, w: string)
    requires IsBlankName(t, w)
    ensures Derives(Spaces, t, true, State(9, map[]), State(|t| - 1, map[]))
  {
    forall k | 9 <= k < |t| - 1 ensures InClass(Space, true, t[k]) {
      assert t[9 + (k - 9)] == w[k - 9];
    }
  }

  /** `(.*?)\n` matches the final line break with an empty group. */
  lemma BlankBreakDerives(t: string, w: string)
    requires IsBlankName(t, w)
    ensures Derives(UpTo("\n"), t, true, State(|t| - 1, map[]), State(|t|, map[1 := Span(|t| - 1, |t| - 1)]))
  {
    var e := |t| - 1;
    var se := State(e, map[]);
    var g := State(e, map[1 := Span(e, e)]);
    CharStartsAt(t, e, '\n');
    assert Derives(Repeat(AnyChar, 0, None, false), t, true, se, se);
    assert Derives(Group(1, Repeat(AnyChar, 0, None, false)), t, true, se, g);
    assert Derives(Lit("\n"), t, true, g, State(|t|, map[1 := Span(e, e)]));
  }

  /** The derivation's tail: `:\s*(.*?)\n` from the colon. */
  lemma BlankTailDerives(t: string, w: string)
    requires IsBlankName(t, w)
    ensures Derives(Cat(Lit(":"), Cat(Spaces, UpTo("\n"))), t, true, State(8, map[]), State(|t|, map[1 := Span(|t| - 1, |t| - 1)]))
  {
    var out := State(|t|, map[1 := Span(|t| - 1, |t| - 1)]);
    BlankSpacesDerive(t, w);
    BlankBreakDerives(t, w);
    DerivesCat(Spaces, UpTo("\n"), t, true, State(9, map[]), State(|t| - 1, map[]), out);
    CharStartsAt(t, 8, ':');
    DerivesLit(":", t, true, State(8, map[]));
    DerivesCat(Lit(":"), Cat(Spaces, UpTo("\n")), t, true, State(8, map[]), State(9, map[]), out);
  }

  /** A text that consists only of `A/C Name:`, whitespace and a final line
      break matches the `account_name` pattern at index 0. */
  lemma BlankNameMatches(t: string, w: string)
    requires IsBlankName(t, w)
    ensures MatchAt(Pattern(AccountName), t, true, 0).Some?
  {
    var out := State(|t|, map[1 := Span(|t| - 1, |t| - 1)]);
    BlankTailDerives(t, w);
    assert Derives(Spaces, t, true, State(8, map[]), State(8, map[]));
    assert StartsAt(t, 0, "A/C Name");
    assert Derives(Lit("A/C Name"), t, true, State(0, map[]), State(8, map[]));
    assert Derives(Pattern(AccountName), t, true, State(0, map[]), out);
    Complete(Pattern(AccountName), t, true, State(0, map[]), out);
  }

  /** Where the group of the first match lies: inside the whitespace. */
  lemma BlankNameGroup(t: string, w: string) returns (p: nat, e: nat)
    requires IsBlankName(t, w)
    ensures FieldMatch(t, AccountName).Some?
    ensures 1 in FieldMatch(t, AccountName).value.groups
    ensures FieldMatch(t, AccountName).value.groups[1] == Span(p, e) && 9 <= p <= e < |t|
  {
    BlankNameMatches(t, w);
    var m := FieldMatch(t, AccountName).value;
    assert m.start == 0;
    var y, colon := LabelledFirst(Label(AccountName), UpTo("\n"), t, 0);
    assert !IsSpace(t[8]);
    UpToFirst("\n", t, y);
    e := m.groups[1].end;
    p := y.pos;
  }

  /** A text that consists only of `A/C Name:`, whitespace and a final line
      break stores `account_name` as the empty string, not left out. With
      any text after that line break the next line is stored instead
      (`NameTakesNextLine`). */
  lemma BlankValueIsEmpty(w: string)
    requires AllSpace(w)
    ensures Lookup("A/C Name:" + w + "\n", AccountName) == Some("")
  {
    var t := "A/C Name:" + w + "\n";
    BlankNameShape(w);
    var p, e := BlankNameGroup(t, w);
    var capture := t[p..e];
    assert AllSpace(capture) by {
      forall k | 0 <= k < |capture| ensures IsSpace(capture[k]) {
        assert capture[k] == t[9 + (p + k - 9)] == w[p + k - 9];
      }
    }
    StripUnique(capture, "", "");
    assert capture + "" + "" == capture;
  }

  /** Absent versus present-but-empty: the text `A/C Name: \n`, which ends at
      its line break, stores `account_name` as the empty string. */
  lemma EmptyNamePresent()
    ensures Key(AccountName) in Details("A/C Name: \n")
    ensures Details("A/C Name: \n")[Key(AccountName)] == ""
  {
    BlankValueIsEmpty(" ");
    assert "A/C Name:" + " " + "\n" == "A/C Name: \n";
    DetailsKeys("A/C Name: \n", AccountName);
  }

  /** Without the line break the key is absent. */
  lemma EmptyNameAbsent()
    ensures Key(AccountName) !in Details("A/C Name: ")
  {
    assert '\n' !in "A/C Name: ";
    LineFieldNeedsBreak("A/C Name: ", AccountName);
    DetailsKeys("A/C Name: ", AccountName);
  }

  /** `A/C Name:`, whitespace `w`, a line break, the value `v` and a final
      line break, stated index by index. */
  predicate IsNameThenLine(t: string, w: string, v: string) {
    && |t| == 11 + |w| + |v|
    && t[..8] == "A/C Name" && t[8] == ':'
    && (forall k :: 9 <= k < 10 + |w| ==> IsSpace(t[k]))
    && (forall k :: 0 <= k < |v| ==> t[10 + |w| + k] == v[k])
    && t[|t| - 1] == '\n'
  }

  lemma NameThenLineShape(w: string, v: string)
    requires AllSpace(w)
    ensures IsNameThenLine("A/C Name:" + w + "\n" + v + "\n", w, v)
  {
    var t := "A/C Name:" + w + "\n" + v + "\n";
    assert t[..8] == "A/C Name";
    assert forall k :: 0 <= k < |w| ==> t[9 + k] == w[k];
    assert t[9 + |w|] == '\n';
    assert forall k :: 0 <= k < |v| ==> t[10 + |w| + k] == v[k];
  }

  /** `(.*?)\n` matches from the start of the value. */
  lemma NextLineMatches(t: string, w: string, v: string)
    requires IsNameThenLine(t, w, v)
    ensures Successes(UpTo("\n"), t, true, State(10 + |w|, map[])) != []
  {
    var b, e := 10 + |w|, |t| - 1;
    var st := State(b, map[]);
    var grouped := State(e, map[1 := Span(b, e)]);
    DerivesRepeat(AnyChar, 0, None, false, t, true, st, e);
    assert Derives(Group(1, Repeat(AnyChar, 0, None, false)), t, true, st, grouped);
    CharStartsAt(t, e, '\n');
    DerivesLit("\n", t, true, grouped);
    DerivesCat(Group(1, Repeat(AnyChar, 0, None, false)), Lit("\n"), t, true, st, grouped, State(e + 1, grouped.caps));
    Complete(UpTo("\n"), t, true, st, State(e + 1, grouped.caps));
  }

  /** `(.*?)\n` from the start of a value without a line break takes the
      whole value and the line break after it. */
  lemma NextLineUpTo(t: string, w: string, v: string)
    requires IsNameThenLine(t, w, v) && '\n' !in v
    ensures var b := 10 + |w|;
      && Successes(UpTo("\n"), t, true, State(b, map[])) != []
      && var out := Successes(UpTo("\n"), t, true, State(b, map[]))[0];
      && out.pos == |t| && 1 in out.caps && out.caps[1] == Span(b, |t| - 1)
  {
    var b, e := 10 + |w|, |t| - 1;
    var st := State(b, map[]);
    NextLineMatches(t, w, v);
    UpToFirst("\n", t, st);
    var out := Successes(UpTo("\n"), t, true, st)[0];
    var end := out.caps[1].end;
    assert end <= e;
    SuccessesValid(UpTo("\n"), t, true, st);
    assert Valid(t, out);
    assert b <= end;
    assert t[end..end + 1] == "\n";
    assert t[end] == t[end..end + 1][0] == '\n';
    ValueHasNoBreak(t, w, v);
    assert end == e;
    assert out.caps[1] == Span(b, e);
    assert out.pos == e + 1;
  }

  /** Between the two line breaks there is none. */
  lemma ValueHasNoBreak(t: string, w: string, v: string)
    requires IsNameThenLine(t, w, v) && '\n' !in v
    ensures forall p :: 10 + |w| <= p < |t| - 1 ==> t[p] != '\n'
  {
    forall p | 10 + |w| <= p < |t| - 1 ensures t[p] != '\n' {
      assert t[10 + |w| + (p - 10 - |w|)] == v[p - 10 - |w|];
    }
  }

  /** `\s*` after the colon runs over `w` and the line break, up to the
      value. */
  lemma NameSpacesRun(t: string, w: string, v: string)
    requires IsNameThenLine(t, w, v) && IsTrimmed(v) && v != []
    ensures Run(t, 9, Space, true, None) == 1 + |w|
  {
    RunLongest(t, 9, Space, true, None, 1 + |w|);
    assert t[10 + |w| + 0] == v[0];
  }

  /** The colon of `A/C Name:` has one way to match. */
  lemma NameColon(t: string)
    requires |t| > 8 && t[8] == ':'
    ensures Successes(Cat(Lit(":"), Cat(Spaces, UpTo("\n"))), t, true, State(8, map[]))
      == Successes(Cat(Spaces, UpTo("\n")), t, true, State(9, map[]))
  {
    CharStartsAt(t, 8, ':');
    assert Successes(Lit(":"), t, true, State(8, map[])) == [State(9, map[])];
    ContinueSingle(Cat(Spaces, UpTo("\n")), t, true, State(9, map[]));
  }

  /** No whitespace precedes that colon, so `\s*:` has one way to match. */
  lemma NameSpacesColon(t: string)
    requires |t| > 8 && t[8] == ':'
    ensures Successes(Cat(Spaces, Cat(Lit(":"), Cat(Spaces, UpTo("\n")))), t, true, State(8, map[]))
      == Successes(Cat(Spaces, UpTo("\n")), t, true, State(9, map[]))
  {
    NameColon(t);
    assert Run(t, 8, Space, true, None) == 0;
    RepeatEmpty(Space, None, true, Cat(Lit(":"), Cat(Spaces, UpTo("\n"))), t, true, State(8, map[]));
  }

  /** From a text that opens with `A/C Name:`, the pattern's ways to match
      are those of `\s*(.*?)\n` after the colon. */
  lemma NameHead(t: string)
    requires |t| > 8 && t[..8] == "A/C Name" && t[8] == ':'
    ensures Successes(Pattern(AccountName), t, true, State(0, map[]))
      == Successes(Cat(Spaces, UpTo("\n")), t, true, State(9, map[]))
  {
    var tail := Cat(Spaces, UpTo("\n"));
    NameSpacesColon(t);
    assert StartsAt(t, 0, "A/C Name");
    assert Successes(Lit("A/C Name"), t, true, State(0, map[])) == [State(8, map[])];
    ContinueSingle(Cat(Spaces, Cat(Lit(":"), tail)), t, true, State(8, map[]));
  }

  /** The first match of the `account_name` pattern is the first success of
      `(.*?)\n` from the start of the value. */
  lemma NameFirst(t: string, w: string, v: string)
    requires IsNameThenLine(t, w, v) && IsTrimmed(v) && v != []
    ensures Successes(UpTo("\n"), t, true, State(10 + |w|, map[])) != []
    ensures Successes(Pattern(AccountName), t, true, State(0, map[])) != []
    ensures Successes(Pattern(AccountName), t, true, State(0, map[]))[0]
      == Successes(UpTo("\n"), t, true, State(10 + |w|, map[]))[0]
  {
    NextLineMatches(t, w, v);
    NameSpacesRun(t, w, v);
    GreedyFirst(Space, 0, None, UpTo("\n"), t, true, State(9, map[]));
    NameHead(t);
  }

  /** When the line after `A/C Name:` holds a value, that value is stored,
      not `""`: the greedy `\s*` after the colon takes the line break as
      well, and `(.*?)\n` then captures the next line. The same holds for
      the other fields that end at a line break. */
  lemma NameTakesNextLine(w: string, v: string)
    requires AllSpace(w) && IsTrimmed(v) && v != [] && '\n' !in v
    ensures Lookup("A/C Name:" + w + "\n" + v + "\n", AccountName) == Some(v)
  {
    var t := "A/C Name:" + w + "\n" + v + "\n";
    NameThenLineShape(w, v);
    NameFirst(t, w, v);
    NextLineUpTo(t, w, v);
    var m := MatchAt(Pattern(AccountName), t, true, 0).value;
    assert FieldMatch(t, AccountName) == Some(m);
    assert m.groups[1] == Span(10 + |w|, |t| - 1);
    assert t[10 + |w|..|t| - 1] == v;
    StripTrimmed(v);
  }

  /** `A/C Name: ` with the name on the next line stores that name. */
  lemma NameOnNextLine()
    ensures Key(AccountName) in Details("A/C Name: \nJo\n")
    ensures Details("A/C Name: \nJo\n")[Key(AccountName)] == "Jo"
  {
    var t := "A/C Name: \nJo\n";
    assert t == "A/C Name:" + " " + "\n" + "Jo" + "\n";
    assert '\n' !in "Jo";
    NameTakesNextLine(" ", "Jo");
    assert Lookup(t, AccountName) == Some("Jo");
    DetailsKeys(t, AccountName);
  }
}
