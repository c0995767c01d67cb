/** Token estimation and budgeted clipping (moss/context/token_budget.py). */
module TokenBudget {

  type Measure = string -> nat

  // ---- estimate_tokens ----

  const CJK_RANGES: seq<(int, int)> := [
    (0x3000, 0x303F), (0x3040, 0x30FF), (0x3400, 0x4DBF), (0x4E00, 0x9FFF),
    (0xA000, 0xA4CF), (0xAC00, 0xD7AF), (0xF900, 0xFAFF), (0xFF00, 0xFFEF)
  ]

  predicate IsCjk(ch: char) {
    exists r <- CJK_RANGES :: r.0 <= ch as int <= r.1
  }

  function CountCjk(text: string): nat {
    if |text| == 0 then 0 else CountCjk(text[..|text| - 1]) + if IsCjk(text[|text| - 1]) then 1 else 0
  }

  function Max(x: nat, y: nat): nat {
    if x <= y then y else x
  }

  function Tokens(cjk: nat, other: nat): nat {
    cjk + (other + 3) / 4
  }

  function EstimateTokens(text: string): nat {
    CjkBound(text);
    Tokens(CountCjk(text), |text| - CountCjk(text))
  }

  lemma {:induction false} CjkBound(text: string)
    ensures CountCjk(text) <= |text|
    decreases |text|
  {
    if |text| > 0 {
      CjkBound(text[..|text| - 1]);
    }
  }

  /** A wide character is one token, the other characters are four to a token, rounded up. */
  lemma {:induction false} EstimateMeans(text: string)
    ensures var wide, narrow := CountCjk(text), EstimateTokens(text) - CountCjk(text);
            wide <= |text| && 0 <= 4 * narrow - (|text| - wide) < 4
  {
    CjkBound(text);
  }

  lemma {:induction false} WideCharacter(ch: char)
    ensures var code := ch as int;
            CountCjk([ch]) ==
            if || 0x3000 <= code <= 0x30FF || 0x3400 <= code <= 0x4DBF || 0x4E00 <= code <= 0x9FFF || 0xA000 <= code <= 0xA4CF
               || 0xAC00 <= code <= 0xD7AF || 0xF900 <= code <= 0xFAFF || 0xFF00 <= code <= 0xFFEF
            then 1 else 0
  {
    assert [ch][..0] == [];
    assert CountCjk([ch]) == if IsCjk(ch) then 1 else 0;
    hide CountCjk;
    CjkRanges(ch);
  }

  lemma CjkRanges(ch: char)
    ensures var code := ch as int;
            IsCjk(ch) <==>
            || 0x3000 <= code <= 0x30FF || 0x3400 <= code <= 0x4DBF || 0x4E00 <= code <= 0x9FFF || 0xA000 <= code <= 0xA4CF
            || 0xAC00 <= code <= 0xD7AF || 0xF900 <= code <= 0xFAFF || 0xFF00 <= code <= 0xFFEF
  {
    var rs := CJK_RANGES;
    assert rs[0] in rs && rs[1] in rs && rs[2] in rs && rs[3] in rs && rs[4] in rs && rs[5] in rs && rs[6] in rs && rs[7] in rs;
  }

  method CountTokens(text: string) returns (tokens: nat)
    ensures tokens == EstimateTokens(text)
    ensures text == "" <==> tokens == 0
    ensures tokens <= |text| <= 4 * tokens
  {
    if text == "" {
      return 0;
    }
    var cjk: nat, other: nat := 0, 0;
    for i := 0 to |text|
      invariant cjk == CountCjk(text[..i]) && cjk + other == i
    {
      assert text[..i + 1][..i] == text[..i];
      if IsCjk(text[i]) {
        cjk := cjk + 1;
      } else {
        other := other + 1;
      }
    }
    assert text[..|text|] == text;
    var latin := (other + 3) / 4;
    return Max(1, cjk + latin);
  }

  lemma {:induction false} CountConcat(a: string, b: string)
    ensures CountCjk(a + b) == CountCjk(a) + CountCjk(b)
    decreases |b|
  {
    if |b| == 0 {
      assert a + b == a;
    } else {
      CountConcat(a, b[..|b| - 1]);
      assert (a + b)[..|a + b| - 1] == a + b[..|b| - 1];
    }
  }

  /** Inserting text anywhere never lowers the estimate. */
  lemma {:induction false} EstimateMonotone(a: string, b: string, c: string)
    ensures EstimateTokens(a + c) <= EstimateTokens(a + b + c)
  {
    CountConcat(a, c);
    CountConcat(a, b);
    CountConcat(a + b, c);
    CjkBound(a);
    CjkBound(b);
    CjkBound(c);
    RoundUpMonotone(|a + c| - CountCjk(a + c), |a + b + c| - CountCjk(a + b + c));
  }

  lemma RoundUpMonotone(x: int, y: int)
    requires 0 <= x <= y
    ensures (x + 3) / 4 <= (y + 3) / 4
  {
  }

  // ---- Clipping ----

  datatype Keep = Head | Tail | Middle

  /** The candidate that keeps `k` characters around `marker`. */
  function Candidate(text: string, k: nat, keep: Keep, marker: string): string
    requires k <= |text|
  {
    match keep
    case Head => text[..k] + marker
    case Tail => marker + text[|text| - k..]
    case Middle => text[..k / 2] + marker + text[|text| - (k - k / 2)..]
  }

  /** The marker is dropped when it alone exhausts the limit. */
  function MarkerFor(measure: Measure, limit: int, marker: string): string {
    if measure(marker) >= limit then "" else marker
  }

  /** Growing the kept part of `text` never lowers the measure. */
  ghost predicate MonotoneOn(measure: Measure, text: string, keep: Keep, marker: string) {
    forall k :: 0 <= k < |text| ==>
                  measure(Candidate(text, k, keep, marker)) <= measure(Candidate(text, k + 1, keep, marker))
  }

  lemma {:induction false} MonotoneSteps(measure: Measure, text: string, keep: Keep, marker: string, i: nat, j: nat)
    requires MonotoneOn(measure, text, keep, marker) && i <= j <= |text|
    ensures measure(Candidate(text, i, keep, marker)) <= measure(Candidate(text, j, keep, marker))
    decreases j - i
  {
    if i < j {
      MonotoneSteps(measure, text, keep, marker, i, j - 1);
    }
  }

  /** `r` is `text` clipped to `limit`, and no candidate keeping more characters fits. */
  ghost predicate BestClip(r: string, text: string, limit: int, measure: Measure, keep: Keep, marker: string) {
    exists k :: 0 <= k <= |text| && r == Candidate(text, k, keep, marker) && measure(r) <= limit
      && forall j :: k < j <= |text| ==> measure(Candidate(text, j, keep, marker)) > limit
  }

  /** The binary search of clip_to_budget between `lo` and `hi` kept characters. */
  function Search(text: string, limit: int, measure: Measure, keep: Keep, marker: string, lo: int, hi: int, best: string): string
    requires 0 <= lo <= |text| + 1 && -1 <= hi <= |text|
    decreases hi - lo
  {
    if lo > hi then best
    else
      var mid := (lo + hi) / 2;
      var cand := Candidate(text, mid, keep, marker);
      if measure(cand) <= limit then Search(text, limit, measure, keep, marker, mid + 1, hi, cand)
      else Search(text, limit, measure, keep, marker, lo, mid - 1, best)
  }

  function Clipped(text: string, limit: int, measure: Measure, keep: Keep := Head, marker: string := "..."): string {
    if limit <= 0 then ""
    else if measure(text) <= limit then text
    else
      var mark := MarkerFor(measure, limit, marker);
      Search(text, limit, measure, keep, mark, 0, |text|, Candidate(text, 0, keep, mark))
  }

  method ClipToBudget(text: string, limit: int, measure: Measure, keep: Keep := Head, marker: string := "...")
    returns (r: string)
    requires measure("") == 0
    ensures r == Clipped(text, limit, measure, keep, marker)
    ensures limit <= 0 ==> r == ""
    ensures limit > 0 ==> measure(r) <= limit
    ensures limit > 0 && measure(text) <= limit ==> r == text
    ensures limit > 0 && measure(text) > limit && MonotoneOn(measure, text, keep, MarkerFor(measure, limit, marker)) ==>
              BestClip(r, text, limit, measure, keep, MarkerFor(measure, limit, marker))
  {
    hide Candidate, MonotoneOn, BestClip;
    ClipIsBest(text, limit, measure, keep, marker);
    if limit <= 0 {
      return "";
    }
    if measure(text) <= limit {
      return text;
    }
    var mark := if measure(marker) >= limit then "" else marker;
    var lo, hi := 0, |text|;
    r := Candidate(text, 0, keep, mark);
    while lo <= hi
      invariant 0 <= lo <= |text| + 1 && -1 <= hi <= |text|
      invariant Clipped(text, limit, measure, keep, marker) == Search(text, limit, measure, keep, mark, lo, hi, r)
      decreases hi - lo
    {
      var mid := (lo + hi) / 2;
      var cand := Candidate(text, mid, keep, mark);
      if measure(cand) <= limit {
        r := cand;
        lo := mid + 1;
      } else {
        hi := mid - 1;
      }
    }
  }

  /** No candidate above `hi` fits. */
  ghost predicate NoneAbove(text: string, limit: int, measure: Measure, keep: Keep, marker: string, hi: int) {
    forall j :: hi < j <= |text| && 0 <= j ==> measure(Candidate(text, j, keep, marker)) > limit
  }

  lemma NoneAboveMid(text: string, limit: int, measure: Measure, keep: Keep, marker: string, mid: nat)
    requires mid <= |text| && MonotoneOn(measure, text, keep, marker)
    requires measure(Candidate(text, mid, keep, marker)) > limit
    ensures NoneAbove(text, limit, measure, keep, marker, mid - 1)
  {
    hide Candidate, MonotoneOn;
    forall j | mid - 1 < j <= |text|
      ensures measure(Candidate(text, j, keep, marker)) > limit
    {
      MonotoneSteps(measure, text, keep, marker, mid, j);
    }
  }

  /** The search result fits, and under a monotone measure no larger kept count does. */
  lemma {:induction false} SearchIsBest(text: string, limit: int, measure: Measure, keep: Keep, marker: string,
                                        lo: int, hi: int, kept: nat)
    requires 0 <= lo <= |text| + 1 && -1 <= hi <= |text| && kept <= |text| && lo <= hi + 1
    requires kept == (if lo == 0 then 0 else lo - 1) && measure(Candidate(text, kept, keep, marker)) <= limit
    requires MonotoneOn(measure, text, keep, marker) ==> NoneAbove(text, limit, measure, keep, marker, hi)
    ensures var r := Search(text, limit, measure, keep, marker, lo, hi, Candidate(text, kept, keep, marker));
            measure(r) <= limit && (MonotoneOn(measure, text, keep, marker) ==> BestClip(r, text, limit, measure, keep, marker))
    decreases hi - lo
  {
    hide Candidate, MonotoneOn, NoneAbove, BestClip;
    if lo > hi {
      if MonotoneOn(measure, text, keep, marker) {
        BestAt(text, limit, measure, keep, marker, kept, hi);
      }
    } else {
      var mid := (lo + hi) / 2;
      if measure(Candidate(text, mid, keep, marker)) <= limit {
        SearchIsBest(text, limit, measure, keep, marker, mid + 1, hi, mid);
      } else {
        if MonotoneOn(measure, text, keep, marker) {
          NoneAboveMid(text, limit, measure, keep, marker, mid);
        }
        SearchIsBest(text, limit, measure, keep, marker, lo, mid - 1, kept);
      }
    }
  }

  lemma BestAt(text: string, limit: int, measure: Measure, keep: Keep, marker: string, kept: nat, hi: int)
    requires kept <= |text| && hi <= kept && measure(Candidate(text, kept, keep, marker)) <= limit
    requires NoneAbove(text, limit, measure, keep, marker, hi)
    ensures BestClip(Candidate(text, kept, keep, marker), text, limit, measure, keep, marker)
  {
    hide Candidate;
  }

  /** What clip_to_budget promises. */
  lemma {:induction false} ClipIsBest(text: string, limit: int, measure: Measure, keep: Keep, marker: string)
    requires measure("") == 0
    ensures var r := Clipped(text, limit, measure, keep, marker);
            && (limit <= 0 ==> r == "")
            && (limit > 0 ==> measure(r) <= limit)
            && (limit > 0 && measure(text) <= limit ==> r == text)
            && (limit > 0 && measure(text) > limit && MonotoneOn(measure, text, keep, MarkerFor(measure, limit, marker)) ==>
                  BestClip(r, text, limit, measure, keep, MarkerFor(measure, limit, marker)))
  {
    hide Candidate, MonotoneOn, BestClip, Search;
    if limit > 0 && measure(text) > limit {
      var mark := MarkerFor(measure, limit, marker);
      NothingKept(text, keep, mark);
      NothingAboveAll(text, limit, measure, keep, mark);
      SearchIsBest(text, limit, measure, keep, mark, 0, |text|, 0);
    }
  }

  lemma NothingAboveAll(text: string, limit: int, measure: Measure, keep: Keep, marker: string)
    ensures NoneAbove(text, limit, measure, keep, marker, |text|)
  {
  }

  lemma NothingKept(text: string, keep: Keep, marker: string)
    ensures Candidate(text, 0, keep, marker) == marker
  {
  }

  // ---- The measures in use are monotone on every text ----

  /** A measure that only grows when text is inserted is monotone for head, tail and middle alike. */
  lemma {:induction false} InsertionMonotone(measure: Measure, text: string, keep: Keep, marker: string)
    requires forall a, b, c :: measure(a + c) <= measure(a + b + c)
    ensures MonotoneOn(measure, text, keep, marker)
  {
    forall k | 0 <= k < |text|
      ensures measure(Candidate(text, k, keep, marker)) <= measure(Candidate(text, k + 1, keep, marker))
    {
      var a, b, c := CandidateGrows(text, k, keep, marker);
    }
  }

  lemma {:induction false} HeadGrows(text: string, k: nat, marker: string) returns (a: string, b: string, c: string)
    requires k < |text|
    ensures Candidate(text, k, Head, marker) == a + c && Candidate(text, k + 1, Head, marker) == a + b + c
  {
    a, b, c := text[..k], [text[k]], marker;
    assert text[..k + 1] == a + b;
  }

  lemma {:induction false} TailGrows(text: string, k: nat, marker: string) returns (a: string, b: string, c: string)
    requires k < |text|
    ensures Candidate(text, k, Tail, marker) == a + c && Candidate(text, k + 1, Tail, marker) == a + b + c
  {
    a, b, c := marker, [text[|text| - k - 1]], text[|text| - k..];
    assert text[|text| - (k + 1)..] == b + c;
    assert a + b + c == a + (b + c);
  }

  lemma {:induction false} MiddleGrows(text: string, k: nat, marker: string) returns (a: string, b: string, c: string)
    requires k < |text|
    ensures Candidate(text, k, Middle, marker) == a + c && Candidate(text, k + 1, Middle, marker) == a + b + c
  {
    var left, right := k / 2, k - k / 2;
    var rest := text[|text| - right..];
    if k % 2 == 1 {
      a, b, c := text[..left], [text[left]], marker + rest;
      assert (k + 1) / 2 == left + 1 && k + 1 - (left + 1) == right && text[..left + 1] == a + b;
      assert text[..left] + marker + rest == a + c && a + b + marker + rest == a + b + c;
    } else {
      a, b, c := text[..left] + marker, [text[|text| - right - 1]], rest;
      assert (k + 1) / 2 == left && text[|text| - (right + 1)..] == b + c;
      assert a + (b + c) == a + b + c;
    }
  }

  /** One more kept character is one inserted character. */
  lemma {:induction false} CandidateGrows(text: string, k: nat, keep: Keep, marker: string)
    returns (a: string, b: string, c: string)
    requires k < |text|
    ensures Candidate(text, k, keep, marker) == a + c && Candidate(text, k + 1, keep, marker) == a + b + c
  {
    hide Candidate;
    match keep
    case Head => a, b, c := HeadGrows(text, k, marker);
    case Tail => a, b, c := TailGrows(text, k, marker);
    case Middle => a, b, c := MiddleGrows(text, k, marker);
  }

  function Ceil(x: real): int {
    if x.Floor as real == x then x.Floor else x.Floor + 1
  }

  function Scale(x: nat, ratio: real): nat {
    var scaled := Ceil(x as real * ratio);
    if scaled < 0 then 0 else scaled
  }

  /** calibrated_measure: the base estimate scaled and rounded up. */
  function Calibrated(base: Measure, ratio: real): Measure {
    text => Scale(base(text), ratio)
  }

  /** The calibrated estimate is the least number of tokens that is not below the scaled one. */
  lemma CalibratedMeans(base: Measure, text: string, ratio: real)
    requires ratio >= 0.0
    ensures var scaled, tokens := base(text) as real * ratio, Calibrated(base, ratio)(text) as real;
            tokens - 1.0 < scaled <= tokens
  {
    assert base(text) as real * ratio >= 0.0;
  }

  lemma ZeroCeil()
    ensures Ceil(0.0) == 0
  {
  }

  lemma CeilMonotone(x: real, y: real)
    requires x <= y
    ensures Ceil(x) <= Ceil(y)
  {
  }

  lemma TimesMonotone(x: nat, y: nat, ratio: real)
    requires x <= y && ratio > 0.0
    ensures x as real * ratio <= y as real * ratio
  {
    assert 0.0 <= (y - x) as real * ratio;
    assert y as real == x as real + (y - x) as real;
  }

  lemma ScaleMonotone(x: nat, y: nat, ratio: real)
    requires x <= y && ratio > 0.0
    ensures Scale(x, ratio) <= Scale(y, ratio)
    ensures Scale(0, ratio) == 0
  {
    hide Ceil;
    TimesMonotone(x, y, ratio);
    CeilMonotone(x as real * ratio, y as real * ratio);
    assert 0 as real * ratio == 0.0;
    ZeroCeil();
  }

  /** estimate_tokens, and any calibration of it, make the binary search exact on every text. */
  lemma {:induction false} EstimatesAreMonotone(text: string, keep: Keep, marker: string, ratio: real)
    requires ratio > 0.0
    ensures MonotoneOn(EstimateTokens, text, keep, marker)
    ensures MonotoneOn(Calibrated(EstimateTokens, ratio), text, keep, marker)
    ensures Calibrated(EstimateTokens, ratio)("") == 0
  {
    hide MonotoneOn, EstimateTokens, Scale;
    forall a, b, c
      ensures EstimateTokens(a + c) <= EstimateTokens(a + b + c)
      ensures Calibrated(EstimateTokens, ratio)(a + c) <= Calibrated(EstimateTokens, ratio)(a + b + c)
    {
      EstimateMonotone(a, b, c);
      ScaleMonotone(EstimateTokens(a + c), EstimateTokens(a + b + c), ratio);
    }
    InsertionMonotone(EstimateTokens, text, keep, marker);
    InsertionMonotone(Calibrated(EstimateTokens, ratio), text, keep, marker);
    EmptyEstimate();
    ScaleMonotone(0, 0, ratio);
  }

  lemma EmptyEstimate()
    ensures EstimateTokens("") == 0
  {
  }
}
