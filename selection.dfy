/**
 * The weighted selection engine of SchemaHandler, as pure functions of the
 * specification tree and of the random stream.
 *
 * Python draws from one Random object (random_selector, randint(1, 100)).
 * Here the stream is a function from draw number to draw, and every
 * specification function takes the number of the next unused draw and
 * returns, with its value, the number of the next draw after it.
 */
module Selection {
  import opened Wrappers
  import opened Errors
  import opened Numbers
  import opened Xml

  /** One value of random_selector. */
  type Draw = d: int | 1 <= d <= 100 witness 1

  /** The run's random stream: draw number i is rng(i). */
  type Stream = nat -> Draw

  /**
   * A method that returned `r` and left the stream cursor at `drawn` did what
   * the specification `s` (a value and the next cursor, or an error) says.
   */
  ghost predicate Tracks<T>(r: Res<T>, drawn: nat, s: Res<(T, nat)>) {
    match s
    case Ok(v) => r == Ok(v.0) && drawn == v.1
    case Err(e) => r == Err(e)
  }

  /** A method result that succeeded tracks a successful specification. */
  lemma TracksOk<T>(r: Res<T>, drawn: nat, s: Res<(T, nat)>)
    requires Tracks(r, drawn, s) && r.Ok?
    ensures s == Ok((r.value, drawn))
  {
  }

  /** A method result that failed tracks a specification failing alike. */
  lemma TracksErr<T>(r: Res<T>, drawn: nat, s: Res<(T, nat)>)
    requires Tracks(r, drawn, s) && r.Err?
    ensures s == Err(r.error)
  {
  }

  /** `prefix` followed by the items `s` produces (an error stays an error). */
  function Prepend<T>(prefix: seq<T>, s: Res<(seq<T>, nat)>): Res<(seq<T>, nat)> {
    match s
    case Ok(v) => Ok((prefix + v.0, v.1))
    case Err(e) => Err(e)
  }

  lemma PrependNothing<T>(s: Res<(seq<T>, nat)>)
    ensures Prepend([], s) == s
  {
    if s.Ok? {
      assert [] + s.value.0 == s.value.0;
    }
  }

  /** Concatenation is associative; stated over any element type so that no element is inspected. */
  lemma AppendAssoc<T>(a: seq<T>, b: seq<T>, c: seq<T>)
    ensures (a + b) + c == a + (b + c)
  {
  }

  lemma PrependTwice<T>(a: seq<T>, b: seq<T>, s: Res<(seq<T>, nat)>)
    ensures Prepend(a, Prepend(b, s)) == Prepend(a + b, s)
  {
    if s.Ok? {
      assert a + (b + s.value.0) == (a + b) + s.value.0;
    }
  }

  // ---------------------------------------------------------------------------
  //  Weights and inclusion
  // ---------------------------------------------------------------------------

  /** element.get("weight", default="100") */
  function WeightText(e: Element): string {
    if "weight" in e.attributes then e.attributes["weight"] else "100"
  }

  lemma ParsesHundred()
    ensures ParseInt("100") == Some(100)
  {
    ParseIntToString(100);
    assert IntToString(10) == "10";
    assert IntToString(100) == "100";
  }

  /**
   * fetch_weight: the weight attribute as an integer in [0, 100], 100 when
   * the attribute is absent; a non-integer or out-of-range weight is an error
   * naming the element.
   */
  function FetchWeight(e: Element): (r: Res<int>)
    ensures r.Ok? ==> 0 <= r.value <= 100
  {
    ParseWeight(e.tag, WeightText(e))
  }

  /** Without a weight attribute an element weighs 100. */
  lemma FetchWeightDefault(e: Element)
    requires "weight" !in e.attributes
    ensures FetchWeight(e) == Ok(100)
  {
    ParsesHundred();
  }

  /** The weight text of element `tag` as an integer in [0, 100], or the error fetch_weight raises. */
  function ParseWeight(tag: string, value: string): (r: Res<int>)
    ensures r.Ok? ==> 0 <= r.value <= 100 && ParseInt(value) == Some(r.value)
    ensures r.Err? <==> ParseInt(value).None? || !(0 <= ParseInt(value).value <= 100)
    ensures r.Err? && ParseInt(value).None? ==> r.error == IllegalWeight(tag, value)
    ensures r.Err? && ParseInt(value).Some? ==> r.error == WeightOutOfRange(tag, value)
  {
    match ParseInt(value)
    case None => Err(IllegalWeight(tag, value))
    case Some(w) => if w < 0 || w > 100 then Err(WeightOutOfRange(tag, value)) else Ok(w)
  }

  /** A weight written as str(w) reads back as w when it lies in [0, 100], and is rejected otherwise. */
  lemma {:induction false} FetchWeightOfPrinted(e: Element, w: int)
    requires "weight" in e.attributes && e.attributes["weight"] == IntToString(w)
    ensures 0 <= w <= 100 ==> FetchWeight(e) == Ok(w)
    ensures !(0 <= w <= 100) ==> FetchWeight(e) == Err(WeightOutOfRange(e.tag, IntToString(w)))
  {
    ParseIntToString(w);
    assert WeightText(e) == IntToString(w);
  }

  /** select_element: the element is included when the selector does not exceed its weight. */
  function SelectElement(e: Element, selector: int): (r: Res<bool>)
    ensures r.Ok? <==> FetchWeight(e).Ok?
    ensures r.Ok? ==> (r.value <==> selector <= FetchWeight(e).value)
    ensures r.Err? ==> r.error == FetchWeight(e).error
  {
    var w :- FetchWeight(e);
    Ok(selector <= w)
  }

  /** With any draw, weight 100 always includes and weight 0 never does. */
  lemma {:induction false} SelectionBoundaries(e: Element, d: Draw)
    ensures FetchWeight(e) == Ok(100) ==> SelectElement(e, d) == Ok(true)
    ensures FetchWeight(e) == Ok(0) ==> SelectElement(e, d) == Ok(false)
  {
  }

  // ---------------------------------------------------------------------------
  //  Choosing among alternatives: process_values
  // ---------------------------------------------------------------------------

  /**
   * The loop of process_values from value k on, `sum` being the weights of
   * the values before k: the first value whose running total reaches the
   * selector, an error when none does.
   */
  function ChosenFrom(values: seq<Element>, k: nat, selector: int, sum: int, name: Option<string>, valueTag: string): (r: Res<Option<string>>)
    requires k <= |values|
    ensures r.Ok? ==> exists i | k <= i < |values| :: r.value == values[i].text
    decreases |values| - k
  {
    if k == |values| then Err(NoValueSelected(name, valueTag))
    else
      var w :- FetchWeight(values[k]);
      if selector <= sum + w then Ok(values[k].text)
      else ChosenFrom(values, k + 1, selector, sum + w, name, valueTag)
  }

  /** process_values: choose among the children tagged `valueTag` with one selector. */
  function ChosenValue(parent: Element, name: Option<string>, valueTag: string, selector: int): Res<Option<string>>
    requires valueTag != ""
  {
    ChosenFrom(FindAll(parent, valueTag), 0, selector, 0, name, valueTag)
  }

  predicate WeightsValid(values: seq<Element>) {
    forall i | 0 <= i < |values| :: FetchWeight(values[i]).Ok?
  }

  /** The total weight of the first k values: the reference for the running sum. */
  function PrefixWeight(values: seq<Element>, k: nat): int
    requires WeightsValid(values) && k <= |values|
  {
    if k == 0 then 0 else PrefixWeight(values, k - 1) + FetchWeight(values[k - 1]).value
  }

  lemma {:induction false} PrefixWeightMonotone(values: seq<Element>, j: nat, k: nat)
    requires WeightsValid(values) && j <= k <= |values|
    ensures PrefixWeight(values, j) <= PrefixWeight(values, k)
    decreases k - j
  {
    if j < k {
      PrefixWeightMonotone(values, j, k - 1);
    }
  }

  /** One step of the loop in process_values, for a value whose weight is well formed. */
  lemma ChosenFromStep(values: seq<Element>, k: nat, selector: int, sum: int, name: Option<string>, valueTag: string)
    requires k < |values| && FetchWeight(values[k]).Ok?
    ensures selector <= sum + FetchWeight(values[k]).value ==> ChosenFrom(values, k, selector, sum, name, valueTag) == Ok(values[k].text)
    ensures selector > sum + FetchWeight(values[k]).value ==>
      ChosenFrom(values, k, selector, sum, name, valueTag) == ChosenFrom(values, k + 1, selector, sum + FetchWeight(values[k]).value, name, valueTag)
  {
  }

  /** A value whose weight leaves the running sum short of the selector passes the choice on. */
  lemma ChosenFromNext(values: seq<Element>, k: nat, selector: int, sum: int, k1: nat, sum1: int, name: Option<string>, valueTag: string)
    requires k < |values| && k1 == k + 1 && FetchWeight(values[k]).Ok?
    requires sum1 == sum + FetchWeight(values[k]).value && selector > sum1
    ensures ChosenFrom(values, k, selector, sum, name, valueTag) == ChosenFrom(values, k1, selector, sum1, name, valueTag)
  {
  }

  lemma {:induction false} ChosenFromAt(values: seq<Element>, k: nat, selector: int, i: nat, name: Option<string>, valueTag: string)
    requires WeightsValid(values) && k <= i < |values|
    requires selector <= PrefixWeight(values, i + 1)
    requires forall j | k < j <= i :: PrefixWeight(values, j) < selector
    ensures ChosenFrom(values, k, selector, PrefixWeight(values, k), name, valueTag) == Ok(values[i].text)
    decreases i - k
  {
    var w := FetchWeight(values[k]).value;
    var sum := PrefixWeight(values, k);
    assert PrefixWeight(values, k + 1) == sum + w;
    ChosenFromStep(values, k, selector, sum, name, valueTag);
    if k < i {
      assert PrefixWeight(values, k + 1) < selector;
      ChosenFromAt(values, k + 1, selector, i, name, valueTag);
    }
  }

  /**
   * process_values returns the text of the first value, in document order,
   * whose cumulative weight is at least the selector.
   */
  lemma {:induction false} ChosenIsFirstCovering(values: seq<Element>, selector: int, i: nat, name: Option<string>, valueTag: string)
    requires WeightsValid(values) && i < |values|
    requires selector <= PrefixWeight(values, i + 1)
    requires forall j | 0 < j <= i :: PrefixWeight(values, j) < selector
    ensures ChosenFrom(values, 0, selector, 0, name, valueTag) == Ok(values[i].text)
  {
    ChosenFromAt(values, 0, selector, i, name, valueTag);
  }

  lemma {:induction false} ChosenFromBeyond(values: seq<Element>, k: nat, selector: int, name: Option<string>, valueTag: string)
    requires WeightsValid(values) && k <= |values|
    requires selector > PrefixWeight(values, |values|)
    ensures ChosenFrom(values, k, selector, PrefixWeight(values, k), name, valueTag) == Err(NoValueSelected(name, valueTag))
    decreases |values| - k
  {
    if k < |values| {
      var w := FetchWeight(values[k]).value;
      var sum := PrefixWeight(values, k);
      assert PrefixWeight(values, k + 1) == sum + w;
      PrefixWeightMonotone(values, k + 1, |values|);
      assert selector > sum + w;
      ChosenFromStep(values, k, selector, sum, name, valueTag);
      ChosenFromBeyond(values, k + 1, selector, name, valueTag);
    }
  }

  lemma {:induction false} ChosenFromWithin(values: seq<Element>, k: nat, selector: int, name: Option<string>, valueTag: string)
    requires WeightsValid(values) && k <= |values|
    requires PrefixWeight(values, k) < selector <= PrefixWeight(values, |values|)
    ensures ChosenFrom(values, k, selector, PrefixWeight(values, k), name, valueTag).Ok?
    decreases |values| - k
  {
    var k1 := k + 1;
    var sum, sum1 := PrefixWeight(values, k), PrefixWeight(values, k1);
    assert sum1 == sum + FetchWeight(values[k]).value;
    if sum1 < selector {
      ChosenFromWithin(values, k1, selector, name, valueTag);
      ChosenFromNext(values, k, selector, sum, k1, sum1, name, valueTag);
    } else {
      ChosenFromStep(values, k, selector, sum, name, valueTag);
    }
  }

  /**
   * With well-formed weights and a selector of at least 1, process_values
   * succeeds exactly when the selector does not exceed the total weight;
   * otherwise it raises, which includes the case of no values at all.
   */
  lemma {:induction false} ChosenSucceedsIffCovered(values: seq<Element>, selector: int, name: Option<string>, valueTag: string)
    requires WeightsValid(values) && selector >= 1
    ensures ChosenFrom(values, 0, selector, 0, name, valueTag).Ok? <==> selector <= PrefixWeight(values, |values|)
    ensures selector > PrefixWeight(values, |values|) ==> ChosenFrom(values, 0, selector, 0, name, valueTag) == Err(NoValueSelected(name, valueTag))
  {
    if selector > PrefixWeight(values, |values|) {
      ChosenFromBeyond(values, 0, selector, name, valueTag);
    } else {
      ChosenFromWithin(values, 0, selector, name, valueTag);
    }
  }

  /** When the weights add up to at least 100, no draw exhausts the alternatives. */
  lemma {:induction false} FullWeightsNeverExhaust(values: seq<Element>, d: Draw, name: Option<string>, valueTag: string)
    requires WeightsValid(values) && PrefixWeight(values, |values|) >= 100
    ensures ChosenFrom(values, 0, d, 0, name, valueTag).Ok?
  {
    ChosenSucceedsIffCovered(values, d, name, valueTag);
  }

  // ---------------------------------------------------------------------------
  //  Inclusion of children: fetch_selected_elements
  // ---------------------------------------------------------------------------

  /**
   * fetch_selected_elements from child k on: one draw per child, the child
   * kept when the draw does not exceed its weight.
   */
  function SelectedFrom(es: seq<Element>, k: nat, rng: Stream, pos: nat): (r: Res<(seq<Element>, nat)>)
    requires k <= |es|
    ensures r.Ok? ==> r.value.1 == pos + (|es| - k)
    ensures r.Ok? ==> |r.value.0| <= |es| - k
    decreases |es| - k
  {
    if k == |es| then Ok(([], pos))
    else
      var keep :- SelectElement(es[k], rng(pos));
      var rest :- SelectedFrom(es, k + 1, rng, pos + 1);
      Ok(((if keep then [es[k]] else []) + rest.0, rest.1))
  }

  /** The selected children are a subsequence of the children: order is kept. */
  lemma {:induction false} SelectedIsSubsequence(es: seq<Element>, k: nat, rng: Stream, pos: nat)
    requires k <= |es| && SelectedFrom(es, k, rng, pos).Ok?
    ensures Subsequence(SelectedFrom(es, k, rng, pos).value.0, es[k..])
    decreases |es| - k
  {
    if k < |es| {
      var r := SelectedFrom(es, k, rng, pos).value.0;
      var rest := SelectedFrom(es, k + 1, rng, pos + 1).value.0;
      SelectedIsSubsequence(es, k + 1, rng, pos + 1);
      assert es[k..][1..] == es[k + 1..];
      if SelectElement(es[k], rng(pos)).value {
        assert r == [es[k]] + rest && r[1..] == rest;
      } else {
        assert r == rest;
      }
    }
  }

  /** The items of `xs` whose flag is set, in order. */
  function Filter<T>(xs: seq<T>, keep: seq<bool>): (r: seq<T>)
    requires |keep| == |xs|
    ensures |r| <= |xs|
  {
    if xs == [] then [] else (if keep[0] then [xs[0]] else []) + Filter(xs[1..], keep[1..])
  }

  /** Child i is to be kept when draw pos + i does not exceed its weight. */
  ghost function KeepFlags(es: seq<Element>, rng: Stream, pos: nat): (r: seq<bool>)
    requires WeightsValid(es)
    ensures |r| == |es|
  {
    seq(|es|, i requires 0 <= i < |es| => rng(pos + i) <= FetchWeight(es[i]).value)
  }

  lemma KeepFlagsTail(es: seq<Element>, rng: Stream, pos: nat)
    requires WeightsValid(es) && |es| > 0
    ensures WeightsValid(es[1..])
    ensures KeepFlags(es, rng, pos)[0] == (rng(pos) <= FetchWeight(es[0]).value)
    ensures KeepFlags(es, rng, pos)[1..] == KeepFlags(es[1..], rng, pos + 1)
  {
    assert WeightsValid(es[1..]) by {
      forall i | 0 <= i < |es[1..]| ensures FetchWeight(es[1..][i]).Ok? {
        assert es[1..][i] == es[i + 1];
      }
    }
    var a, b := KeepFlags(es, rng, pos)[1..], KeepFlags(es[1..], rng, pos + 1);
    forall i | 0 <= i < |b| ensures a[i] == b[i] {
      assert es[1..][i] == es[i + 1];
    }
  }

  /**
   * fetch_selected_elements keeps exactly the children whose own draw (the
   * i-th after `pos` for child i) does not exceed their weight, in order.
   */
  lemma {:induction false} SelectedFromFilter(es: seq<Element>, k: nat, rng: Stream, pos: nat)
    requires k <= |es| && SelectedFrom(es, k, rng, pos).Ok?
    ensures WeightsValid(es[k..])
    ensures SelectedFrom(es, k, rng, pos).value.0 == Filter(es[k..], KeepFlags(es[k..], rng, pos))
    decreases |es| - k
  {
    SelectedOkIffWeightsValid(es, k, rng, pos);
    if k < |es| {
      var k1, p1 := k + 1, pos + 1;
      SelectedFromFilter(es, k1, rng, p1);
      SelectedFromFilterStep(es, k, rng, pos, k1, p1);
    }
  }

  lemma SelectedFromFilterStep(es: seq<Element>, k: nat, rng: Stream, pos: nat, k1: nat, p1: nat)
    requires k < |es| && k1 == k + 1 && p1 == pos + 1
    requires SelectedFrom(es, k, rng, pos).Ok? && WeightsValid(es[k..]) && WeightsValid(es[k1..])
    requires SelectedFrom(es, k1, rng, p1).Ok?
    requires SelectedFrom(es, k1, rng, p1).value.0 == Filter(es[k1..], KeepFlags(es[k1..], rng, p1))
    ensures SelectedFrom(es, k, rng, pos).value.0 == Filter(es[k..], KeepFlags(es[k..], rng, pos))
  {
    var xs := es[k..];
    assert xs[1..] == es[k1..] && xs[0] == es[k];
    KeepFlagsTail(xs, rng, pos);
  }

  /** Selection fails exactly when some child carries a malformed weight. */
  lemma {:induction false} SelectedOkIffWeightsValid(es: seq<Element>, k: nat, rng: Stream, pos: nat)
    requires k <= |es|
    ensures SelectedFrom(es, k, rng, pos).Ok? <==> WeightsValid(es[k..])
    decreases |es| - k
  {
    if k < |es| {
      SelectedOkIffWeightsValid(es, k + 1, rng, pos + 1);
      assert es[k..][1..] == es[k + 1..];
      assert es[k..][0] == es[k];
      if WeightsValid(es[k + 1..]) && FetchWeight(es[k]).Ok? {
        forall i | 0 <= i < |es[k..]| ensures FetchWeight(es[k..][i]).Ok? {
          if i > 0 {
            assert es[k..][i] == es[k + 1..][i - 1];
          }
        }
      }
    }
  }

  /** Children of weight 100 are always all kept. */
  lemma {:induction false} SelectedAllFullWeight(es: seq<Element>, k: nat, rng: Stream, pos: nat)
    requires k <= |es|
    requires forall i | k <= i < |es| :: FetchWeight(es[i]) == Ok(100)
    ensures SelectedFrom(es, k, rng, pos) == Ok((es[k..], pos + (|es| - k)))
    decreases |es| - k
  {
    if k < |es| {
      SelectedAllFullWeight(es, k + 1, rng, pos + 1);
      assert FetchWeight(es[k]) == Ok(100);
      assert SelectElement(es[k], rng(pos)) == Ok(true);
      assert [es[k]] + es[k + 1..] == es[k..];
    }
  }

  /** Children of weight 0 are never kept, though each still takes a draw. */
  lemma {:induction false} SelectedAllZeroWeight(es: seq<Element>, k: nat, rng: Stream, pos: nat)
    requires k <= |es|
    requires forall i | k <= i < |es| :: FetchWeight(es[i]) == Ok(0)
    ensures SelectedFrom(es, k, rng, pos) == Ok(([], pos + (|es| - k)))
    decreases |es| - k
  {
    if k < |es| {
      SelectedAllZeroWeight(es, k + 1, rng, pos + 1);
    }
  }

  // ---------------------------------------------------------------------------
  //  Properties: process_property and the loops over Property children
  // ---------------------------------------------------------------------------

  /**
   * What process_property returns: (None, None) for a property left out, or
   * the name and the chosen value of one kept; either text may itself be
   * None when its element has no text.
   */
  datatype Choice = Excluded | Included(name: Option<string>, value: Option<string>) {
    function Name(): Option<string> {
      if Included? then name else None
    }

    function Value(): Option<string> {
      if Included? then value else None
    }

    /** fetch_property_name_value's test: the property was included under the name `target`. */
    predicate NamedAs(target: string) {
      Included? && name == Some(target)
    }

    /** The draws process_property took for this choice: one, and a second when the property was included. */
    function Draws(): nat {
      if Included? then 2 else 1
    }
  }

  /** The draws process_property took over the choices `cs`: one per excluded property, two per included one. */
  function TotalDraws(cs: seq<Choice>): nat {
    if cs == [] then 0 else cs[0].Draws() + TotalDraws(cs[1..])
  }

  /**
   * process_property: read the name, draw once for inclusion and, only when
   * included, draw a second time to choose the value.
   */
  function PropertyChoice(p: Element, nameTag: string, valueTag: string, rng: Stream, pos: nat): (r: Res<(Choice, nat)>)
    requires nameTag != "" && valueTag != ""
    ensures r.Ok? ==> r.value.1 == (if r.value.0.Included? then pos + 2 else pos + 1)
  {
    var name :- FetchText(p, nameTag);
    var keep :- SelectElement(p, rng(pos));
    if keep then
      var value :- ChosenValue(p, name, valueTag, rng(pos + 1));
      Ok((Included(name, value), pos + 2))
    else
      Ok((Excluded, pos + 1))
  }

  /**
   * An excluded property takes one draw and yields (None, None); an included
   * one takes a second draw, which chooses its value.
   */
  lemma PropertyChoiceDraws(p: Element, nameTag: string, valueTag: string, rng: Stream, pos: nat)
    requires nameTag != "" && valueTag != ""
    ensures var r := PropertyChoice(p, nameTag, valueTag, rng, pos);
      && (r.Ok? ==> FetchText(p, nameTag).Ok? && FetchWeight(p).Ok?)
      && (r.Ok? ==> (r.value.0.Included? <==> rng(pos) <= FetchWeight(p).value))
      && (r.Ok? && r.value.0.Excluded? ==> r.value.1 == pos + 1 && r.value.0.Name().None? && r.value.0.Value().None?)
      && (r.Ok? && r.value.0.Included? ==>
            r.value.1 == pos + 2
            && r.value.0.name == FetchText(p, nameTag).value
            && Ok(r.value.0.value) == ChosenValue(p, r.value.0.name, valueTag, rng(pos + 1)))
  {
  }

  /** process_property on each Property child from k on, one Choice per child. */
  function ChoicesFrom(props: seq<Element>, k: nat, rng: Stream, pos: nat): (r: Res<(seq<Choice>, nat)>)
    requires k <= |props|
    ensures r.Ok? ==> |r.value.0| == |props| - k
    ensures r.Ok? ==> pos + (|props| - k) <= r.value.1 <= pos + 2 * (|props| - k)
    decreases |props| - k
  {
    if k == |props| then Ok(([], pos))
    else
      var c :- PropertyChoice(props[k], "PropertyName", "Value", rng, pos);
      var rest :- ChoicesFrom(props, k + 1, rng, c.1);
      Ok(([c.0] + rest.0, rest.1))
  }

  /** The first choice, then the draws of the rest. */
  lemma TotalDrawsCons(c: Choice, rest: seq<Choice>, m: nat)
    requires m <= |rest|
    ensures TotalDraws(([c] + rest)[..m + 1]) == c.Draws() + TotalDraws(rest[..m])
  {
    assert ([c] + rest)[..m + 1] == [c] + rest[..m];
    assert ([c] + rest[..m])[1..] == rest[..m];
  }

  /** After the choices of properties k.., the cursor has moved on by the draws of those choices. */
  lemma {:induction false} ChoicesFromDraws(props: seq<Element>, k: nat, rng: Stream, pos: nat)
    requires k <= |props| && ChoicesFrom(props, k, rng, pos).Ok?
    ensures ChoicesFrom(props, k, rng, pos).value.1 == pos + TotalDraws(ChoicesFrom(props, k, rng, pos).value.0)
    decreases |props| - k
  {
    if k < |props| {
      var c := PropertyChoice(props[k], "PropertyName", "Value", rng, pos).value;
      var k1, p1 := k + 1, c.1;
      ChoicesFromDraws(props, k1, rng, p1);
      var rest := ChoicesFrom(props, k1, rng, p1).value.0;
      assert ChoicesFrom(props, k, rng, pos).value.0 == [c.0] + rest;
      assert ([c.0] + rest)[1..] == rest;
    }
  }

  /**
   * Choice i of `cs` is the choice process_property makes for `p` at the draw
   * after those of the choices before it, the first of them drawn at `pos`.
   */
  ghost predicate ChoiceAt(p: Element, rng: Stream, cs: seq<Choice>, i: nat, pos: nat)
    requires i < |cs|
  {
    PropertyChoice(p, "PropertyName", "Value", rng, pos + TotalDraws(cs[..i])) == Ok((cs[i], pos + TotalDraws(cs[..i + 1])))
  }

  lemma ChoiceAtFirst(p: Element, rng: Stream, c: Choice, rest: seq<Choice>, pos: nat, p1: nat)
    requires PropertyChoice(p, "PropertyName", "Value", rng, pos) == Ok((c, p1))
    ensures ChoiceAt(p, rng, [c] + rest, 0, pos)
  {
    assert ([c] + rest)[..0] == [] && ([c] + rest)[..1] == [c] && [c][1..] == [];
  }

  lemma ChoiceAtCons(p: Element, rng: Stream, c: Choice, rest: seq<Choice>, m: nat, pos: nat, p1: nat)
    requires m < |rest| && p1 == pos + c.Draws() && ChoiceAt(p, rng, rest, m, p1)
    ensures ChoiceAt(p, rng, [c] + rest, m + 1, pos)
  {
    TotalDrawsCons(c, rest, m);
    TotalDrawsCons(c, rest, m + 1);
  }

  /** What a choice made at draw position d says about its property. */
  lemma ChoiceAtMeaning(p: Element, rng: Stream, cs: seq<Choice>, i: nat, pos: nat, d: nat)
    requires i < |cs| && ChoiceAt(p, rng, cs, i, pos) && d == pos + TotalDraws(cs[..i])
    ensures FetchWeight(p).Ok? && FetchText(p, "PropertyName").Ok?
    ensures cs[i].Included? <==> rng(d) <= FetchWeight(p).value
    ensures cs[i].Excluded? ==> cs[i].Name().None? && cs[i].Value().None?
    ensures cs[i].Included? ==>
              cs[i].Name() == FetchText(p, "PropertyName").value
              && Ok(cs[i].Value()) == ChosenValue(p, cs[i].Name(), "Value", rng(d + 1))
  {
    PropertyChoiceDraws(p, "PropertyName", "Value", rng, d);
  }

  /** Property J, among properties k.., gets the choice at J - k, made at its own draw position. */
  lemma {:induction false} ChoicesFromAt(props: seq<Element>, k: nat, rng: Stream, pos: nat, J: nat)
    requires k <= J < |props| && ChoicesFrom(props, k, rng, pos).Ok?
    ensures J - k < |ChoicesFrom(props, k, rng, pos).value.0|
    ensures ChoiceAt(props[J], rng, ChoicesFrom(props, k, rng, pos).value.0, J - k, pos)
    decreases J - k
  {
    var p1 := PropertyChoice(props[k], "PropertyName", "Value", rng, pos).value.1;
    var k1 := k + 1;
    if J > k {
      ChoicesFromAt(props, k1, rng, p1, J);
    }
    ChoicesFromAtStep(props, k, rng, pos, J, k1, p1);
  }

  lemma ChoicesFromAtStep(props: seq<Element>, k: nat, rng: Stream, pos: nat, J: nat, k1: nat, p1: nat)
    requires k <= J < |props| && k1 == k + 1 && ChoicesFrom(props, k, rng, pos).Ok?
    requires PropertyChoice(props[k], "PropertyName", "Value", rng, pos).Ok?
    requires p1 == PropertyChoice(props[k], "PropertyName", "Value", rng, pos).value.1
    requires k < J ==>
               J - k1 < |ChoicesFrom(props, k1, rng, p1).value.0|
               && ChoiceAt(props[J], rng, ChoicesFrom(props, k1, rng, p1).value.0, J - k1, p1)
    ensures J - k < |ChoicesFrom(props, k, rng, pos).value.0|
    ensures ChoiceAt(props[J], rng, ChoicesFrom(props, k, rng, pos).value.0, J - k, pos)
  {
    var c := PropertyChoice(props[k], "PropertyName", "Value", rng, pos).value;
    var rest := ChoicesFrom(props, k1, rng, p1).value.0;
    assert ChoicesFrom(props, k, rng, pos).value.0 == [c.0] + rest;
    if J == k {
      ChoiceAtFirst(props[J], rng, c.0, rest, pos, p1);
    } else {
      ChoiceAtCons(props[J], rng, c.0, rest, J - k1, pos, p1);
      ChoiceAtSame(props[J], rng, [c.0] + rest, ChoicesFrom(props, k, rng, pos).value.0, J - k1 + 1, J - k, pos);
    }
  }

  lemma ChoiceAtSame(p: Element, rng: Stream, cs: seq<Choice>, cs': seq<Choice>, i: nat, i': nat, pos: nat)
    requires i < |cs| && cs == cs' && i == i' && ChoiceAt(p, rng, cs, i, pos)
    ensures i' < |cs'| && ChoiceAt(p, rng, cs', i', pos)
  {
  }

  /** The names of the choices, None for an excluded property (fetch_property_headings). */
  function Names(cs: seq<Choice>): (r: seq<Option<string>>)
    ensures |r| == |cs| && forall i | 0 <= i < |cs| :: r[i] == cs[i].Name()
  {
    seq(|cs|, i requires 0 <= i < |cs| => cs[i].Name())
  }

  /** The chosen values, None for an excluded property (fetch_property_values). */
  function Values(cs: seq<Choice>): (r: seq<Option<string>>)
    ensures |r| == |cs| && forall i | 0 <= i < |cs| :: r[i] == cs[i].Value()
  {
    seq(|cs|, i requires 0 <= i < |cs| => cs[i].Value())
  }

  /**
   * fetch_property_name_value from child k on: process each property in turn
   * and stop at the first one that is included under the wanted name.
   */
  function NamedValueFrom(props: seq<Element>, k: nat, target: string, rng: Stream, pos: nat): (r: Res<(Option<string>, nat)>)
    requires k <= |props|
    ensures r.Ok? ==> pos <= r.value.1 <= pos + 2 * (|props| - k)
    ensures r.Ok? && r.value.0.Some? ==> exists i | k <= i < |props| :: FetchText(props[i], "PropertyName") == Ok(Some(target))
    decreases |props| - k
  {
    if k == |props| then Ok((None, pos))
    else
      var c :- PropertyChoice(props[k], "PropertyName", "Value", rng, pos);
      if c.0.NamedAs(target) then Ok((c.0.value, c.1))
      else NamedValueFrom(props, k + 1, target, rng, c.1)
  }

  /**
   * A search from property k that read properties k..m-1 and returned `r`:
   * those properties get the choices ChoicesFrom makes for them, the cursor
   * ends where those choices end, no choice before the last is included
   * under `target`, and either the last one is, and `r` holds its value, or
   * the search ran off the end and `r` holds None.
   */
  ghost predicate ScannedTo(props: seq<Element>, k: nat, target: string, rng: Stream, pos: nat, m: nat, r: (Option<string>, nat))
    requires k <= m <= |props|
  {
    var s := ChoicesFrom(props[..m], k, rng, pos);
    && s.Ok?
    && r.1 == s.value.1
    && (forall i | 0 <= i < |s.value.0| - 1 :: !s.value.0[i].NamedAs(target))
    && if m > k && s.value.0[m - k - 1].NamedAs(target) then r.0 == s.value.0[m - k - 1].value
       else m == |props| && r.0 == None
  }

  /**
   * fetch_property_name_value returns the value of the first property that
   * is included under the wanted name, after processing every property
   * before it, and None only when it processed them all and none was.
   */
  lemma {:induction false} NamedValueFromScan(props: seq<Element>, k: nat, target: string, rng: Stream, pos: nat)
    requires k <= |props| && NamedValueFrom(props, k, target, rng, pos).Ok?
    ensures exists m | k <= m <= |props| :: ScannedTo(props, k, target, rng, pos, m, NamedValueFrom(props, k, target, rng, pos).value)
    decreases |props| - k
  {
    var r := NamedValueFrom(props, k, target, rng, pos).value;
    if k == |props| {
      assert props[..k] == props;
      assert ScannedTo(props, k, target, rng, pos, k, r);
    } else {
      var c := PropertyChoice(props[k], "PropertyName", "Value", rng, pos).value;
      if c.0.NamedAs(target) {
        ScannedFound(props, k, target, rng, pos, c.0, c.1, r);
      } else {
        var k1, p1 := k + 1, c.1;
        NamedValueFromScan(props, k1, target, rng, p1);
        var m :| k1 <= m <= |props| && ScannedTo(props, k1, target, rng, p1, m, r);
        ScannedToCons(props, k, target, rng, pos, c.0, p1, m, r);
      }
    }
  }

  /** The property at k is the one searched for: the search read k..k. */
  lemma ScannedFound(props: seq<Element>, k: nat, target: string, rng: Stream, pos: nat, c: Choice, p1: nat, r: (Option<string>, nat))
    requires k < |props| && PropertyChoice(props[k], "PropertyName", "Value", rng, pos) == Ok((c, p1))
    requires c.NamedAs(target) && r == (c.value, p1)
    ensures ScannedTo(props, k, target, rng, pos, k + 1, r)
  {
    var q := props[..k + 1];
    assert q[k] == props[k];
    assert ChoicesFrom(q, k + 1, rng, p1) == Ok(([], p1));
    assert [c] + [] == [c];
    assert ChoicesFrom(q, k, rng, pos) == Ok(([c], p1));
  }

  /** A property not included under `target`, then a search that read k+1..m-1. */
  lemma ScannedToCons(props: seq<Element>, k: nat, target: string, rng: Stream, pos: nat, c: Choice, p1: nat, m: nat, r: (Option<string>, nat))
    requires k < m <= |props| && PropertyChoice(props[k], "PropertyName", "Value", rng, pos) == Ok((c, p1))
    requires !c.NamedAs(target) && ScannedTo(props, k + 1, target, rng, p1, m, r)
    ensures ScannedTo(props, k, target, rng, pos, m, r)
  {
    var q := props[..m];
    assert q[k] == props[k];
    var rest := ChoicesFrom(q, k + 1, rng, p1).value;
    var s := ChoicesFrom(q, k, rng, pos).value;
    assert s == ([c] + rest.0, rest.1);
    forall i | 0 <= i < |s.0| - 1
      ensures !s.0[i].NamedAs(target)
    {
      if i > 0 {
        assert s.0[i] == rest.0[i - 1];
      }
    }
    if m > k + 1 {
      assert s.0[m - k - 1] == rest.0[m - (k + 1) - 1];
    }
  }
}
