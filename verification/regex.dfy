/**
  The part of Python's `re` that the extractors rely on: patterns built from
  literals, single character classes under a counted quantifier, grouping,
  `?` and `|`, matched by backtracking.

  `Successes` lists every way a pattern can match from a state, in the order a
  backtracking engine tries them (a greedy quantifier longest first, a lazy one
  shortest first, `?` with its body first, `|` left first). `re.match` returns
  the first entry; `re.search` tries the start positions from left to right.
  `Derives` says declaratively which end states a pattern can reach, and
  `SuccessesExact` proves that the list holds exactly those.
 */
module Regex {
  import opened Options
  import opened Text

  /** The character classes of the patterns. */
  datatype CharClass =
    | Digit          // \d
    | Space          // \s
    | Letter         // [A-Za-z]
    | DigitOrComma   // [\d,]
    | AnyChar        // . : every character with DOTALL, all but a newline without

  predicate InClass(cls: CharClass, dotAll: bool, c: char) {
    match cls
    case Digit => IsDigit(c)
    case Space => IsSpace(c)
    case Letter => IsLetter(c)
    case DigitOrComma => IsDigit(c) || c == ','
    case AnyChar => dotAll || c != '\n'
  }

  datatype Regex =
    | Lit(s: string)                                                 // the text s
    | Repeat(cls: CharClass, min: nat, max: Option<nat>, greedy: bool) // cls{min,max}, lazy when !greedy
    | Cat(first: Regex, rest: Regex)                                 // first rest
    | Alt(left: Regex, right: Regex)                                 // left|right
    | Opt(body: Regex)                                               // (?:body)?
    | Group(index: nat, body: Regex)                                 // (body) as group index

  /** The text of a group is `t[start..end]`. */
  datatype Span = Span(start: nat, end: nat)

  /** A position in the text and the groups captured on the way there. */
  datatype State = State(pos: nat, caps: map<nat, Span>)

  /** The position and every group lie inside the text. */
  ghost predicate Valid(t: string, st: State) {
    && st.pos <= |t|
    && forall n :: n in st.caps ==> st.caps[n].start <= st.caps[n].end <= |t|
  }

  ghost predicate AllValid(t: string, from: nat, sts: seq<State>) {
    forall k :: 0 <= k < |sts| ==> Valid(t, sts[k]) && from <= sts[k].pos
  }

  /** `\d{n}` */
  function Digits(n: nat): Regex {
    Repeat(Digit, n, Some(n), true)
  }

  /** The number of characters of class `cls` that follow index `i`,
      stopping at `max` when there is one. */
  function Run(t: string, i: nat, cls: CharClass, dotAll: bool, max: Option<nat>): (n: nat)
    ensures n == 0 || i + n <= |t|
    ensures max.Some? ==> n <= max.value
    ensures forall k :: i <= k < i + n ==> InClass(cls, dotAll, t[k])
    ensures i + n >= |t| || (max.Some? && n == max.value) || !InClass(cls, dotAll, t[i + n])
    decreases |t| - i
  {
    if i >= |t| || (max.Some? && max.value == 0) || !InClass(cls, dotAll, t[i]) then 0
    else 1 + Run(t, i + 1, cls, dotAll, if max.Some? then Some(max.value - 1) else None)
  }

  /** `Run` is the longest such run: every shorter count is covered. */
  lemma {:induction false} RunLongest(t: string, i: nat, cls: CharClass, dotAll: bool, max: Option<nat>, c: nat)
    requires max.Some? ==> c <= max.value
    requires c == 0 || i + c <= |t|
    requires forall k :: i <= k < i + c ==> InClass(cls, dotAll, t[k])
    ensures c <= Run(t, i, cls, dotAll, max)
    decreases c
  {
    if c > 0 {
      RunLongest(t, i + 1, cls, dotAll, if max.Some? then Some(max.value - 1) else None, c - 1);
    }
  }

  /** The end positions a quantifier tries, from `lo` to `hi`: downwards
      when greedy, upwards when lazy. */
  function Tries(lo: nat, hi: nat, caps: map<nat, Span>, greedy: bool): (r: seq<State>)
    requires lo <= hi
    ensures |r| == hi - lo + 1
    ensures forall k :: 0 <= k < |r| ==> r[k] == State(if greedy then hi - k else lo + k, caps)
  {
    seq(hi - lo + 1, k requires 0 <= k <= hi - lo => State(if greedy then hi - k else lo + k, caps))
  }

  /** Records group `n` as running from `start` to each end state. */
  function Close(n: nat, start: nat, outs: seq<State>): (r: seq<State>)
    ensures |r| == |outs|
    ensures forall k :: 0 <= k < |r| ==> r[k] == State(outs[k].pos, outs[k].caps[n := Span(start, outs[k].pos)])
  {
    seq(|outs|, k requires 0 <= k < |outs| => State(outs[k].pos, outs[k].caps[n := Span(start, outs[k].pos)]))
  }

  /** Every way `r` matches the text from `st`, in backtracking order. */
  function Successes(r: Regex, t: string, dotAll: bool, st: State): seq<State>
    decreases r, 0
  {
    match r
    case Lit(s) =>
      if StartsAt(t, st.pos, s) then [State(st.pos + |s|, st.caps)] else []
    case Repeat(cls, lo, hi, greedy) =>
      var n := Run(t, st.pos, cls, dotAll, hi);
      if n < lo then [] else Tries(st.pos + lo, st.pos + n, st.caps, greedy)
    case Cat(a, b) =>
      Continue(b, t, dotAll, Successes(a, t, dotAll, st))
    case Alt(a, b) =>
      Successes(a, t, dotAll, st) + Successes(b, t, dotAll, st)
    case Opt(a) =>
      Successes(a, t, dotAll, st) + [st]
    case Group(n, a) =>
      Close(n, st.pos, Successes(a, t, dotAll, st))
  }

  /** Every way `b` matches after each of `mids`, taken in order. */
  function Continue(b: Regex, t: string, dotAll: bool, mids: seq<State>): seq<State>
    decreases b, 1, |mids|
  {
    if mids == [] then []
    else Successes(b, t, dotAll, mids[0]) + Continue(b, t, dotAll, mids[1..])
  }

  /** From a state inside the text, every end state is inside the text, at
      or after the start, with every group inside the text. */
  lemma {:induction false} SuccessesValid(r: Regex, t: string, dotAll: bool, st: State)
    requires Valid(t, st)
    ensures AllValid(t, st.pos, Successes(r, t, dotAll, st))
    decreases r, 0
  {
    match r
    case Lit(s) =>
    case Repeat(cls, lo, hi, greedy) =>
    case Cat(a, b) =>
      SuccessesValid(a, t, dotAll, st);
      ContinueValid(b, t, dotAll, st.pos, Successes(a, t, dotAll, st));
    case Alt(a, b) =>
      SuccessesValid(a, t, dotAll, st);
      SuccessesValid(b, t, dotAll, st);
    case Opt(a) =>
      SuccessesValid(a, t, dotAll, st);
    case Group(n, a) =>
      var inners := Successes(a, t, dotAll, st);
      SuccessesValid(a, t, dotAll, st);
      forall k | 0 <= k < |inners| ensures Valid(t, Close(n, st.pos, inners)[k]) {
        assert Valid(t, inners[k]);
      }
  }

  lemma {:induction false} ContinueValid(b: Regex, t: string, dotAll: bool, from: nat, mids: seq<State>)
    requires AllValid(t, from, mids)
    ensures AllValid(t, from, Continue(b, t, dotAll, mids))
    decreases b, 1, |mids|
  {
    if mids != [] {
      assert Valid(t, mids[0]);
      SuccessesValid(b, t, dotAll, mids[0]);
      assert AllValid(t, from, mids[1..]) by {
        forall k | 0 <= k < |mids[1..]| ensures Valid(t, mids[1..][k]) && from <= mids[1..][k].pos {
          assert mids[1..][k] == mids[k + 1];
        }
      }
      ContinueValid(b, t, dotAll, from, mids[1..]);
    }
  }

  /** The end states `r` can reach from `st`, declaratively. (The measure
      names the text as well as the pattern, so that the verifier unfolds a
      derivation of a constant pattern one level at a time, through the split
      lemmas below, rather than all at once.) */
  ghost predicate Derives(r: Regex, t: string, dotAll: bool, st: State, out: State)
    decreases r, |t|
  {
    match r
    case Lit(s) =>
      StartsAt(t, st.pos, s) && out == State(st.pos + |s|, st.caps)
    case Repeat(cls, lo, hi, _) =>
      && out.caps == st.caps
      && st.pos + lo <= out.pos
      && (hi.Some? ==> out.pos <= st.pos + hi.value)
      && (out.pos == st.pos || out.pos <= |t|)
      && forall k :: st.pos <= k < out.pos ==> InClass(cls, dotAll, t[k])
    case Cat(a, b) =>
      exists mid :: Derives(a, t, dotAll, st, mid) && Derives(b, t, dotAll, mid, out)
    case Alt(a, b) =>
      Derives(a, t, dotAll, st, out) || Derives(b, t, dotAll, st, out)
    case Opt(a) =>
      Derives(a, t, dotAll, st, out) || out == st
    case Group(n, a) =>
      exists inner :: Derives(a, t, dotAll, st, inner) && out == State(inner.pos, inner.caps[n := Span(st.pos, inner.pos)])
  }

  /** A literal that sits at the current position derives the state just
      after it. */
  lemma DerivesLit(s: string, t: string, dotAll: bool, st: State)
    requires StartsAt(t, st.pos, s)
    ensures Derives(Lit(s), t, dotAll, st, State(st.pos + |s|, st.caps))
  {
  }

  /** A derivation of `a` followed by one of `b` is one of `a b`. */
  lemma DerivesCat(a: Regex, b: Regex, t: string, dotAll: bool, st: State, mid: State, out: State)
    requires Derives(a, t, dotAll, st, mid) && Derives(b, t, dotAll, mid, out)
    ensures Derives(Cat(a, b), t, dotAll, st, out)
  {
  }

  /** A run of `cls` characters within the bounds derives the state after it. */
  lemma DerivesRepeat(cls: CharClass, lo: nat, hi: Option<nat>, greedy: bool, t: string, dotAll: bool, st: State, j: nat)
    requires st.pos + lo <= j && (hi.Some? ==> j <= st.pos + hi.value) && (j == st.pos || j <= |t|)
    requires forall p :: st.pos <= p < j ==> InClass(cls, dotAll, t[p])
    ensures Derives(Repeat(cls, lo, hi, greedy), t, dotAll, st, State(j, st.caps))
  {
  }

  lemma DerivesAlt(a: Regex, b: Regex, t: string, dotAll: bool, st: State, out: State)
    requires Derives(a, t, dotAll, st, out) || Derives(b, t, dotAll, st, out)
    ensures Derives(Alt(a, b), t, dotAll, st, out)
  {
  }

  lemma DerivesOpt(a: Regex, t: string, dotAll: bool, st: State, out: State)
    requires Derives(a, t, dotAll, st, out) || out == st
    ensures Derives(Opt(a), t, dotAll, st, out)
  {
  }

  /** A derivation of a group's body is one of the group, which records it. */
  lemma DerivesGroup(n: nat, a: Regex, t: string, dotAll: bool, st: State, inner: State)
    requires Derives(a, t, dotAll, st, inner)
    ensures Derives(Group(n, a), t, dotAll, st, State(inner.pos, inner.caps[n := Span(st.pos, inner.pos)]))
  {
  }

  /** A derivation of `a b` passes through some `mid`. */
  lemma CatSplit(a: Regex, b: Regex, t: string, dotAll: bool, st: State, out: State) returns (mid: State)
    requires Derives(Cat(a, b), t, dotAll, st, out)
    ensures Derives(a, t, dotAll, st, mid) && Derives(b, t, dotAll, mid, out)
  {
    mid :| Derives(a, t, dotAll, st, mid) && Derives(b, t, dotAll, mid, out);
  }

  /** A derivation of `s b` finds `s` at the start and derives `b` after it. */
  lemma LitSplit(s: string, b: Regex, t: string, dotAll: bool, st: State, out: State)
    requires Derives(Cat(Lit(s), b), t, dotAll, st, out)
    ensures StartsAt(t, st.pos, s) && Derives(b, t, dotAll, State(st.pos + |s|, st.caps), out)
  {
  }

  /** A derivation of `cls{lo,hi} b` runs over characters of `cls` up to some
      `mid` and derives `b` from there. */
  lemma RepeatSplit(cls: CharClass, lo: nat, hi: Option<nat>, greedy: bool, b: Regex, t: string, dotAll: bool, st: State, out: State)
    returns (mid: State)
    requires Derives(Cat(Repeat(cls, lo, hi, greedy), b), t, dotAll, st, out)
    ensures mid.caps == st.caps && st.pos + lo <= mid.pos && (mid.pos == st.pos || mid.pos <= |t|)
    ensures hi.Some? ==> mid.pos <= st.pos + hi.value
    ensures forall p :: st.pos <= p < mid.pos ==> InClass(cls, dotAll, t[p])
    ensures Derives(b, t, dotAll, mid, out)
  {
    mid :| Derives(Repeat(cls, lo, hi, greedy), t, dotAll, st, mid) && Derives(b, t, dotAll, mid, out);
  }

  lemma AltSplit(a: Regex, b: Regex, t: string, dotAll: bool, st: State, out: State)
    requires Derives(Alt(a, b), t, dotAll, st, out)
    ensures Derives(a, t, dotAll, st, out) || Derives(b, t, dotAll, st, out)
  {
  }

  lemma OptSplit(a: Regex, t: string, dotAll: bool, st: State, out: State)
    requires Derives(Opt(a), t, dotAll, st, out)
    ensures Derives(a, t, dotAll, st, out) || out == st
  {
  }

  /** A derivation of a group is one of its body, with the group recorded. */
  lemma GroupSplit(n: nat, a: Regex, t: string, dotAll: bool, st: State, out: State) returns (inner: State)
    requires Derives(Group(n, a), t, dotAll, st, out)
    ensures Derives(a, t, dotAll, st, inner)
    ensures out == State(inner.pos, inner.caps[n := Span(st.pos, inner.pos)])
  {
    inner :| Derives(a, t, dotAll, st, inner) && out == State(inner.pos, inner.caps[n := Span(st.pos, inner.pos)]);
  }

  /** `out` follows some entry of `mids` exactly when it is in `Continue`. */
  lemma {:induction false} ContinueMember(b: Regex, t: string, dotAll: bool, mids: seq<State>, out: State)
    ensures out in Continue(b, t, dotAll, mids) <==>
            exists k :: 0 <= k < |mids| && out in Successes(b, t, dotAll, mids[k])
    decreases |mids|
  {
    if mids != [] {
      ContinueMember(b, t, dotAll, mids[1..], out);
      if out in Continue(b, t, dotAll, mids[1..]) {
        var k :| 0 <= k < |mids[1..]| && out in Successes(b, t, dotAll, mids[1..][k]);
        assert mids[k + 1] == mids[1..][k];
      }
      forall k | 1 <= k < |mids| && out in Successes(b, t, dotAll, mids[k])
        ensures out in Continue(b, t, dotAll, mids[1..])
      {
        assert mids[1..][k - 1] == mids[k];
      }
    }
  }

  /** Every entry of `Successes` is a derivation. */
  lemma {:induction false} Sound(r: Regex, t: string, dotAll: bool, st: State, out: State)
    requires out in Successes(r, t, dotAll, st)
    ensures Derives(r, t, dotAll, st, out)
    decreases r
  {
    match r
    case Lit(s) =>
    case Repeat(cls, lo, hi, greedy) =>
    case Cat(a, b) =>
      var mids := Successes(a, t, dotAll, st);
      ContinueMember(b, t, dotAll, mids, out);
      var k :| 0 <= k < |mids| && out in Successes(b, t, dotAll, mids[k]);
      Sound(a, t, dotAll, st, mids[k]);
      Sound(b, t, dotAll, mids[k], out);
    case Alt(a, b) =>
      if out in Successes(a, t, dotAll, st) {
        Sound(a, t, dotAll, st, out);
      } else {
        Sound(b, t, dotAll, st, out);
      }
    case Opt(a) =>
      if out in Successes(a, t, dotAll, st) {
        Sound(a, t, dotAll, st, out);
      }
    case Group(n, a) =>
      var inners := Successes(a, t, dotAll, st);
      var k :| 0 <= k < |inners| && out == Close(n, st.pos, inners)[k];
      Sound(a, t, dotAll, st, inners[k]);
  }

  /** Every position from `lo` to `hi` is among the tries. */
  lemma TriesHas(lo: nat, hi: nat, caps: map<nat, Span>, greedy: bool, p: nat)
    requires lo <= p <= hi
    ensures State(p, caps) in Tries(lo, hi, caps, greedy)
  {
    var k := if greedy then hi - p else p - lo;
    assert Tries(lo, hi, caps, greedy)[k] == State(p, caps);
  }

  /** A quantifier tries every end position it can reach. */
  lemma RepeatComplete(cls: CharClass, lo: nat, hi: Option<nat>, greedy: bool, t: string, dotAll: bool, st: State, out: State)
    requires Derives(Repeat(cls, lo, hi, greedy), t, dotAll, st, out)
    ensures out in Successes(Repeat(cls, lo, hi, greedy), t, dotAll, st)
  {
    var n := Run(t, st.pos, cls, dotAll, hi);
    RunLongest(t, st.pos, cls, dotAll, hi, out.pos - st.pos);
    TriesHas(st.pos + lo, st.pos + n, st.caps, greedy, out.pos);
  }

  /** Every derivation is an entry of `Successes`. */
  lemma {:induction false} Complete(r: Regex, t: string, dotAll: bool, st: State, out: State)
    requires Derives(r, t, dotAll, st, out)
    ensures out in Successes(r, t, dotAll, st)
    decreases r
  {
    match r
    case Lit(s) =>
    case Repeat(cls, lo, hi, greedy) =>
      RepeatComplete(cls, lo, hi, greedy, t, dotAll, st, out);
    case Cat(a, b) =>
      var mid :| Derives(a, t, dotAll, st, mid) && Derives(b, t, dotAll, mid, out);
      Complete(a, t, dotAll, st, mid);
      var mids := Successes(a, t, dotAll, st);
      var k :| 0 <= k < |mids| && mids[k] == mid;
      Complete(b, t, dotAll, mid, out);
      ContinueMember(b, t, dotAll, mids, out);
    case Alt(a, b) =>
      if Derives(a, t, dotAll, st, out) {
        Complete(a, t, dotAll, st, out);
      } else {
        Complete(b, t, dotAll, st, out);
      }
    case Opt(a) =>
      if Derives(a, t, dotAll, st, out) {
        Complete(a, t, dotAll, st, out);
      }
    case Group(n, a) =>
      var inner :| Derives(a, t, dotAll, st, inner) && out == State(inner.pos, inner.caps[n := Span(st.pos, inner.pos)]);
      Complete(a, t, dotAll, st, inner);
      var inners := Successes(a, t, dotAll, st);
      var k :| 0 <= k < |inners| && inners[k] == inner;
      assert Close(n, st.pos, inners)[k] == out;
  }

  /** The backtracking list holds exactly the derivable end states. */
  lemma SuccessesExact(r: Regex, t: string, dotAll: bool, st: State, out: State)
    ensures out in Successes(r, t, dotAll, st) <==> Derives(r, t, dotAll, st, out)
  {
    if out in Successes(r, t, dotAll, st) {
      Sound(r, t, dotAll, st, out);
    }
    if Derives(r, t, dotAll, st, out) {
      Complete(r, t, dotAll, st, out);
    }
  }

  // ------------------------------------------------------- first success

  /** The first way `Continue` succeeds comes from the first entry `k` of
      `mids` after which `b` matches at all, and is `b`'s first way from there. */
  lemma {:induction false} ContinueFirst(b: Regex, t: string, dotAll: bool, mids: seq<State>) returns (k: nat)
    requires Continue(b, t, dotAll, mids) != []
    ensures k < |mids| && Successes(b, t, dotAll, mids[k]) != []
    ensures forall j :: 0 <= j < k ==> Successes(b, t, dotAll, mids[j]) == []
    ensures Continue(b, t, dotAll, mids)[0] == Successes(b, t, dotAll, mids[k])[0]
    decreases |mids|
  {
    var here := Successes(b, t, dotAll, mids[0]);
    assert Continue(b, t, dotAll, mids) == here + Continue(b, t, dotAll, mids[1..]);
    if here == [] {
      var k' := ContinueFirst(b, t, dotAll, mids[1..]);
      ContinueSkip(b, t, dotAll, mids, k');
      k := k' + 1;
    } else {
      k := 0;
    }
  }

  /** Where `b` has no way to match after the first entry, the first way
      `Continue` succeeds after the others is also its first way overall. */
  lemma ContinueSkip(b: Regex, t: string, dotAll: bool, mids: seq<State>, k: nat)
    requires |mids| > 0 && Successes(b, t, dotAll, mids[0]) == []
    requires k < |mids| - 1 && Successes(b, t, dotAll, mids[1..][k]) != []
    requires forall j :: 0 <= j < k ==> Successes(b, t, dotAll, mids[1..][j]) == []
    requires Continue(b, t, dotAll, mids[1..]) != []
    requires Continue(b, t, dotAll, mids[1..])[0] == Successes(b, t, dotAll, mids[1..][k])[0]
    ensures Successes(b, t, dotAll, mids[k + 1]) != []
    ensures forall j :: 0 <= j < k + 1 ==> Successes(b, t, dotAll, mids[j]) == []
    ensures Continue(b, t, dotAll, mids)[0] == Successes(b, t, dotAll, mids[k + 1])[0]
  {
    assert Continue(b, t, dotAll, mids) == Continue(b, t, dotAll, mids[1..]);
    assert forall j :: 1 <= j < |mids| ==> mids[j] == mids[1..][j - 1];
  }

  /** The first success of `first rest` is the first success of `rest` from
      some end state of `first`, and every earlier end state of `first`
      leaves `rest` without a match. */
  lemma CatFirst(a: Regex, b: Regex, t: string, dotAll: bool, st: State) returns (k: nat)
    requires Successes(Cat(a, b), t, dotAll, st) != []
    ensures k < |Successes(a, t, dotAll, st)|
    ensures Successes(b, t, dotAll, Successes(a, t, dotAll, st)[k]) != []
    ensures forall j :: 0 <= j < k ==> Successes(b, t, dotAll, Successes(a, t, dotAll, st)[j]) == []
    ensures Successes(Cat(a, b), t, dotAll, st)[0] == Successes(b, t, dotAll, Successes(a, t, dotAll, st)[k])[0]
  {
    k := ContinueFirst(b, t, dotAll, Successes(a, t, dotAll, st));
  }

  /** The first success of `s rest`: `s` is at the current position and the
      rest matches right after it. */
  lemma LitFirst(s: string, b: Regex, t: string, dotAll: bool, st: State)
    requires Successes(Cat(Lit(s), b), t, dotAll, st) != []
    ensures StartsAt(t, st.pos, s)
    ensures forall k :: 0 <= k < |s| ==> t[st.pos + k] == s[k]
    ensures |s| > 0 ==> t[st.pos] == s[0]
    ensures var mid := State(st.pos + |s|, st.caps);
      && Successes(b, t, dotAll, mid) != []
      && Successes(Cat(Lit(s), b), t, dotAll, st)[0] == Successes(b, t, dotAll, mid)[0]
  {
    var k := CatFirst(Lit(s), b, t, dotAll, st);
    forall k | 0 <= k < |s| ensures t[st.pos + k] == s[k] {
      assert t[st.pos..st.pos + |s|][k] == t[st.pos + k];
    }
  }

  /** The first success of `cls{lo,max} rest`: the quantifier stops at some
      `mid` after at least `lo` (and at most `max`) characters of `cls`, and
      the rest's first success from `mid` is the whole first success. */
  lemma RepeatFirst(cls: CharClass, lo: nat, max: Option<nat>, greedy: bool, b: Regex, t: string, dotAll: bool, st: State)
    returns (mid: State)
    requires Successes(Cat(Repeat(cls, lo, max, greedy), b), t, dotAll, st) != []
    ensures mid.caps == st.caps && st.pos + lo <= mid.pos
    ensures mid.pos == st.pos || mid.pos <= |t|
    ensures max.Some? ==> mid.pos <= st.pos + max.value
    ensures forall p :: st.pos <= p < mid.pos ==> InClass(cls, dotAll, t[p])
    ensures Successes(b, t, dotAll, mid) != []
    ensures Successes(Cat(Repeat(cls, lo, max, greedy), b), t, dotAll, st)[0] == Successes(b, t, dotAll, mid)[0]
  {
    var k := CatFirst(Repeat(cls, lo, max, greedy), b, t, dotAll, st);
    var n := Run(t, st.pos, cls, dotAll, max);
    var tries := Tries(st.pos + lo, st.pos + n, st.caps, greedy);
    mid := Successes(Repeat(cls, lo, max, greedy), t, dotAll, st)[k];
    assert mid == tries[k];
  }

  /** A sequence whose first part has exactly one way to match continues
      from that one state. */
  lemma ContinueSingle(b: Regex, t: string, dotAll: bool, mid: State)
    ensures Continue(b, t, dotAll, [mid]) == Successes(b, t, dotAll, mid)
  {
    assert [mid][1..] == [];
  }

  /** Where no character of `cls` follows, `cls{0,max} rest` matches as the
      rest alone. */
  lemma RepeatEmpty(cls: CharClass, max: Option<nat>, greedy: bool, b: Regex, t: string, dotAll: bool, st: State)
    requires Run(t, st.pos, cls, dotAll, max) == 0
    ensures Successes(Cat(Repeat(cls, 0, max, greedy), b), t, dotAll, st) == Successes(b, t, dotAll, st)
  {
    var mids := Successes(Repeat(cls, 0, max, greedy), t, dotAll, st);
    assert mids == Tries(st.pos, st.pos, st.caps, greedy);
    assert mids == [st];
    ContinueSingle(b, t, dotAll, st);
  }

  /** Where the rest succeeds after the longest run of `cls`, the first
      success of a greedy `cls{lo,max} rest` takes that whole run. */
  lemma GreedyFirst(cls: CharClass, lo: nat, max: Option<nat>, b: Regex, t: string, dotAll: bool, st: State)
    requires lo <= Run(t, st.pos, cls, dotAll, max)
    requires Successes(b, t, dotAll, State(st.pos + Run(t, st.pos, cls, dotAll, max), st.caps)) != []
    ensures var longest := State(st.pos + Run(t, st.pos, cls, dotAll, max), st.caps);
      && Successes(Cat(Repeat(cls, lo, max, true), b), t, dotAll, st) != []
      && Successes(Cat(Repeat(cls, lo, max, true), b), t, dotAll, st)[0] == Successes(b, t, dotAll, longest)[0]
  {
    var n := Run(t, st.pos, cls, dotAll, max);
    var mids := Successes(Repeat(cls, lo, max, true), t, dotAll, st);
    assert mids == Tries(st.pos + lo, st.pos + n, st.caps, true);
    assert mids[0] == State(st.pos + n, st.caps);
  }

  /** The first success of a quantifier on its own: at least `lo` and at
      most `max` characters of `cls`. */
  lemma RepeatHead(cls: CharClass, lo: nat, max: Option<nat>, greedy: bool, t: string, dotAll: bool, st: State)
    requires Successes(Repeat(cls, lo, max, greedy), t, dotAll, st) != []
    ensures var out := Successes(Repeat(cls, lo, max, greedy), t, dotAll, st)[0];
      && out.caps == st.caps && st.pos + lo <= out.pos
      && (out.pos == st.pos || out.pos <= |t|)
      && (max.Some? ==> out.pos <= st.pos + max.value)
      && (forall p :: st.pos <= p < out.pos ==> InClass(cls, dotAll, t[p]))
  {
    var n := Run(t, st.pos, cls, dotAll, max);
    var tries := Tries(st.pos + lo, st.pos + n, st.caps, greedy);
    assert Successes(Repeat(cls, lo, max, greedy), t, dotAll, st)[0] == tries[0];
  }

  /** The `j`-th way a lazy group `(cls*?)` ends is after `j` characters. */
  lemma LazyGroupAt(n: nat, cls: CharClass, t: string, dotAll: bool, st: State, j: nat)
    requires j < |Successes(Group(n, Repeat(cls, 0, None, false)), t, dotAll, st)|
    ensures Successes(Group(n, Repeat(cls, 0, None, false)), t, dotAll, st)[j]
      == State(st.pos + j, st.caps[n := Span(st.pos, st.pos + j)])
  {
    var runs := Successes(Repeat(cls, 0, None, false), t, dotAll, st);
    assert runs == Tries(st.pos, st.pos + Run(t, st.pos, cls, dotAll, None), st.caps, false);
    assert runs[j] == State(st.pos + j, st.caps);
  }

  /** The lazy group's tries before the `k`-th leave the rest without a
      match: stated by position. */
  lemma LazyGroupMisses(n: nat, cls: CharClass, b: Regex, t: string, dotAll: bool, st: State, k: nat)
    requires k < |Successes(Group(n, Repeat(cls, 0, None, false)), t, dotAll, st)|
    requires forall j :: 0 <= j < k ==>
      Successes(b, t, dotAll, Successes(Group(n, Repeat(cls, 0, None, false)), t, dotAll, st)[j]) == []
    ensures forall p :: st.pos <= p < st.pos + k ==> Successes(b, t, dotAll, State(p, st.caps[n := Span(st.pos, p)])) == []
  {
    forall p | st.pos <= p < st.pos + k
      ensures Successes(b, t, dotAll, State(p, st.caps[n := Span(st.pos, p)])) == []
    {
      LazyGroupAt(n, cls, t, dotAll, st, p - st.pos);
    }
  }

  /** The first success of `(cls*?) rest`: the lazy group stops at the
      first position after which the rest matches at all. */
  lemma LazyGroupFirst(n: nat, cls: CharClass, b: Regex, t: string, dotAll: bool, st: State)
    returns (mid: State)
    requires Successes(Cat(Group(n, Repeat(cls, 0, None, false)), b), t, dotAll, st) != []
    ensures st.pos <= mid.pos && mid.caps == st.caps[n := Span(st.pos, mid.pos)]
    ensures Successes(b, t, dotAll, mid) != []
    ensures Successes(Cat(Group(n, Repeat(cls, 0, None, false)), b), t, dotAll, st)[0] == Successes(b, t, dotAll, mid)[0]
    ensures forall p :: st.pos <= p < mid.pos ==> Successes(b, t, dotAll, State(p, st.caps[n := Span(st.pos, p)])) == []
  {
    var k := CatFirst(Group(n, Repeat(cls, 0, None, false)), b, t, dotAll, st);
    LazyGroupAt(n, cls, t, dotAll, st, k);
    LazyGroupMisses(n, cls, b, t, dotAll, st, k);
    mid := State(st.pos + k, st.caps[n := Span(st.pos, st.pos + k)]);
  }

  /** The first success of a group is the first success of its body, with
      the group recorded from the start position to where the body ends. */
  lemma GroupFirst(n: nat, a: Regex, t: string, dotAll: bool, st: State)
    requires Successes(Group(n, a), t, dotAll, st) != []
    ensures Successes(a, t, dotAll, st) != []
    ensures var inner := Successes(a, t, dotAll, st)[0];
      Successes(Group(n, a), t, dotAll, st)[0] == State(inner.pos, inner.caps[n := Span(st.pos, inner.pos)])
  {
  }

  // ------------------------------------------------------ match and search

  /** What a successful `re.match`/`re.search` call reports: where the
      match starts and ends, and the span of every group that took part. */
  datatype Match = Match(start: nat, end: nat, groups: map<nat, Span>)

  ghost predicate MatchValid(t: string, m: Match) {
    m.start <= m.end && Valid(t, State(m.end, m.groups))
  }

  /** `pattern.match(t, i)`: the first success from index `i`. */
  function MatchAt(r: Regex, t: string, dotAll: bool, i: nat): (m: Option<Match>)
    requires i <= |t|
    ensures m.Some? ==> m.value.start == i && MatchValid(t, m.value)
    ensures m.Some? <==> Successes(r, t, dotAll, State(i, map[])) != []
  {
    var outs := Successes(r, t, dotAll, State(i, map[]));
    SuccessesValid(r, t, dotAll, State(i, map[]));
    if outs == [] then None else Some(Match(i, outs[0].pos, outs[0].caps))
  }

  /** The match `pattern.match(t, i)` reports is a derivation. */
  lemma MatchDerives(r: Regex, t: string, dotAll: bool, i: nat)
    requires i <= |t| && MatchAt(r, t, dotAll, i).Some?
    ensures var m := MatchAt(r, t, dotAll, i).value;
      Derives(r, t, dotAll, State(i, map[]), State(m.end, m.groups))
  {
    Sound(r, t, dotAll, State(i, map[]), Successes(r, t, dotAll, State(i, map[]))[0]);
  }

  /** Where some derivation exists, `pattern.match(t, i)` succeeds. */
  lemma DerivesMatch(r: Regex, t: string, dotAll: bool, i: nat, out: State)
    requires i <= |t| && Derives(r, t, dotAll, State(i, map[]), out)
    ensures MatchAt(r, t, dotAll, i).Some?
  {
    Complete(r, t, dotAll, State(i, map[]), out);
  }

  /** `re.search` from index `from`: the match at the leftmost index where
      the pattern matches at all. */
  function Search(r: Regex, t: string, dotAll: bool, from: nat): (m: Option<Match>)
    requires from <= |t|
    ensures m.Some? ==> from <= m.value.start <= |t| && MatchAt(r, t, dotAll, m.value.start) == m
    ensures m.Some? ==> forall i :: from <= i < m.value.start ==> MatchAt(r, t, dotAll, i).None?
    ensures m.None? ==> forall i :: from <= i <= |t| ==> MatchAt(r, t, dotAll, i).None?
    decreases |t| - from
  {
    var here := MatchAt(r, t, dotAll, from);
    if here.Some? || from == |t| then here
    else Search(r, t, dotAll, from + 1)
  }

  /** The search stops at the leftmost index where the pattern matches. */
  lemma SearchFinds(r: Regex, t: string, dotAll: bool, from: nat, j: nat)
    requires from <= j <= |t| && MatchAt(r, t, dotAll, j).Some?
    requires forall i :: from <= i < j ==> MatchAt(r, t, dotAll, i).None?
    ensures Search(r, t, dotAll, from) == MatchAt(r, t, dotAll, j)
  {
  }

  /** Where the pattern matches nowhere from `from` on, the search fails. */
  lemma SearchMisses(r: Regex, t: string, dotAll: bool, from: nat)
    requires from <= |t|
    requires forall i :: from <= i <= |t| ==> MatchAt(r, t, dotAll, i).None?
    ensures Search(r, t, dotAll, from).None?
  {
  }

  /** `match.group(n)`: the text of group `n`, `None` when it took no part. */
  function Captured(t: string, m: Match, n: nat): (g: Option<string>)
    requires MatchValid(t, m)
    ensures g.Some? <==> n in m.groups
    ensures g.Some? ==> var sp := m.groups[n];
      && sp.start <= sp.end <= |t| && |g.value| == sp.end - sp.start
      && forall k :: 0 <= k < |g.value| ==> g.value[k] == t[sp.start + k]
  {
    if n in m.groups then Some(t[m.groups[n].start..m.groups[n].end]) else None
  }
}
