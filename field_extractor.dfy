/**
 * The labelled page metrics and the project name. The page's `span` elements are
 * given as the flat sequence of their text contents, in document order; the value of
 * a label is read from the span right after the first span showing that label.
 */
module FieldExtractor {
  import opened Wrappers
  import opened JsStrings

  const NotAvailable := "N/A"
  const UnknownProject := "Unknown Project"

  const PriceUsdLabel := "Price USD"
  const PriceLabel := "Price"
  const LiquidityLabel := "Liquidity"
  const FdvLabel := "FDV"
  const MarketCapLabel := "Mkt Cap"

  /** Span `i` is the first whose trimmed text is exactly `labelText`. */
  ghost predicate FirstLabelAt(spans: seq<string>, labelText: string, i: int) {
    && 0 <= i < |spans|
    && Trim(spans[i]) == labelText
    && forall j :: 0 <= j < i ==> Trim(spans[j]) != labelText
  }

  ghost predicate LabelAbsent(spans: seq<string>, labelText: string) {
    forall i :: 0 <= i < |spans| ==> Trim(spans[i]) != labelText
  }

  /** `allSpans.findIndex(span => span.textContent.trim() === label)`, as an index or `None` for -1. */
  function LabelIndex(spans: seq<string>, labelText: string): Option<nat> {
    if spans == [] then None
    else if Trim(spans[0]) == labelText then Some(0)
    else
      var rest := LabelIndex(spans[1..], labelText);
      if rest.None? then None else Some(rest.value + 1)
  }

  /** The search finds the first span showing the label, and fails exactly when none does. */
  lemma {:induction false} LabelIndexSpec(spans: seq<string>, labelText: string)
    ensures LabelIndex(spans, labelText).None? <==> LabelAbsent(spans, labelText)
    ensures LabelIndex(spans, labelText).Some? ==> FirstLabelAt(spans, labelText, LabelIndex(spans, labelText).value)
  {
    if spans != [] && Trim(spans[0]) != labelText {
      LabelIndexSpec(spans[1..], labelText);
      assert forall j :: 1 <= j < |spans| ==> spans[j] == spans[1..][j - 1];
    }
  }

  /**
   * `getValueAfterLabel(label)`: the trimmed text of the span right after the first
   * span showing the label; "N/A" when no span shows it, when that span is the last
   * one, or when the following span is blank.
   */
  function ValueAfterLabel(spans: seq<string>, labelText: string): string {
    match LabelIndex(spans, labelText)
    case None => NotAvailable
    case Some(i) =>
      if i + 1 < |spans| then
        OrElse(Trim(spans[i + 1]), NotAvailable)
      else NotAvailable
  }

  /**
   * The value is never empty; it is "N/A" when no span shows the label, and otherwise
   * the trimmed text of the span after the first one showing it, unless there is no
   * such span or it is blank.
   */
  lemma ValueAfterLabelSpec(spans: seq<string>, labelText: string)
    ensures ValueAfterLabel(spans, labelText) != ""
    ensures LabelAbsent(spans, labelText) ==> ValueAfterLabel(spans, labelText) == NotAvailable
    ensures forall i {:trigger FirstLabelAt(spans, labelText, i)} :: FirstLabelAt(spans, labelText, i) ==>
      ValueAfterLabel(spans, labelText) ==
        if i + 1 < |spans| && Trim(spans[i + 1]) != "" then Trim(spans[i + 1]) else NotAvailable
  {
    LabelIndexSpec(spans, labelText);
  }

  /**
   * Read the other way round: a value other than "N/A" was found right after the
   * first span showing the label, and it is already trimmed.
   */
  lemma ValueAfterLabelSource(spans: seq<string>, labelText: string)
    ensures var r := ValueAfterLabel(spans, labelText);
      r != NotAvailable ==>
        exists i :: FirstLabelAt(spans, labelText, i) && i + 1 < |spans| && r == Trim(spans[i + 1])
    ensures Trim(ValueAfterLabel(spans, labelText)) == ValueAfterLabel(spans, labelText)
  {
    var r := ValueAfterLabel(spans, labelText);
    LabelIndexSpec(spans, labelText);
    if LabelIndex(spans, labelText).Some? {
      var i := LabelIndex(spans, labelText).value;
      assert FirstLabelAt(spans, labelText, i);
      if r != NotAvailable {
        assert i + 1 < |spans| && r == Trim(spans[i + 1]);
        TrimIdempotent(spans[i + 1]);
      }
    }
    if r == NotAvailable {
      NotAvailableIsTrimmed();
    }
  }

  lemma NotAvailableIsTrimmed()
    ensures Trim(NotAvailable) == NotAvailable
  {
    assert !IsJsSpace(NotAvailable[0]) && !IsJsSpace(NotAvailable[2]);
    assert TrimStart(NotAvailable) == NotAvailable;
  }

  /** The five metrics of the output, each always present. */
  datatype Metrics = Metrics(priceUSD: string, priceWBNB: string, liquidity: string, fdv: string, marketCap: string)

  /** The five `getValueAfterLabel` calls, each over the same spans and independent of the others. */
  function ExtractMetrics(spans: seq<string>): Metrics {
    Metrics(
      ValueAfterLabel(spans, PriceUsdLabel),
      ValueAfterLabel(spans, PriceLabel),
      ValueAfterLabel(spans, LiquidityLabel),
      ValueAfterLabel(spans, FdvLabel),
      ValueAfterLabel(spans, MarketCapLabel))
  }

  /**
   * Every metric is filled in: a label missing from the page gives "N/A" for its own
   * key, whatever the other labels do, and no key is ever left empty.
   */
  lemma MetricsDefaultPerKey(spans: seq<string>)
    ensures var m := ExtractMetrics(spans);
      && m.priceUSD != "" && m.priceWBNB != "" && m.liquidity != "" && m.fdv != "" && m.marketCap != ""
      && (LabelAbsent(spans, PriceUsdLabel) ==> m.priceUSD == NotAvailable)
      && (LabelAbsent(spans, PriceLabel) ==> m.priceWBNB == NotAvailable)
      && (LabelAbsent(spans, LiquidityLabel) ==> m.liquidity == NotAvailable)
      && (LabelAbsent(spans, FdvLabel) ==> m.fdv == NotAvailable)
      && (LabelAbsent(spans, MarketCapLabel) ==> m.marketCap == NotAvailable)
  {
    ValueAfterLabelSpec(spans, PriceUsdLabel);
    ValueAfterLabelSpec(spans, PriceLabel);
    ValueAfterLabelSpec(spans, LiquidityLabel);
    ValueAfterLabelSpec(spans, FdvLabel);
    ValueAfterLabelSpec(spans, MarketCapLabel);
  }

  /**
   * A page whose only spans are "Price USD" and a value: the USD price is that value
   * and every other key, "FDV" among them, is "N/A". (The "Price" key stays "N/A"
   * too: "Price USD" is not an exact match for "Price".)
   */
  lemma PriceOnlyPage(value: string)
    requires value != "" && Trim(value) == value
    ensures ExtractMetrics([PriceUsdLabel, value]) ==
      Metrics(value, NotAvailable, NotAvailable, NotAvailable, NotAvailable)
  {
    var spans := [PriceUsdLabel, value];
    LabelTrimmed();
    assert ValueAfterLabel(spans, PriceUsdLabel) == value by {
      ValueAfterLabelSpec(spans, PriceUsdLabel);
      assert FirstLabelAt(spans, PriceUsdLabel, 0);
    }
    assert ValueAfterLabel(spans, PriceLabel) == NotAvailable by {
      OnlyInLastSpan(spans, PriceLabel);
    }
    assert ValueAfterLabel(spans, LiquidityLabel) == NotAvailable by {
      assert PriceUsdLabel[0] == 'P' && LiquidityLabel[0] == 'L';
      OnlyInLastSpan(spans, LiquidityLabel);
    }
    assert ValueAfterLabel(spans, FdvLabel) == NotAvailable by {
      OnlyInLastSpan(spans, FdvLabel);
    }
    assert ValueAfterLabel(spans, MarketCapLabel) == NotAvailable by {
      OnlyInLastSpan(spans, MarketCapLabel);
    }
  }

  /** A label that only the last span can show has no value. */
  lemma OnlyInLastSpan(spans: seq<string>, labelText: string)
    requires |spans| > 0 && forall i :: 0 <= i < |spans| - 1 ==> Trim(spans[i]) != labelText
    ensures ValueAfterLabel(spans, labelText) == NotAvailable
  {
    ValueAfterLabelSpec(spans, labelText);
    if Trim(spans[|spans| - 1]) == labelText {
      assert FirstLabelAt(spans, labelText, |spans| - 1);
    }
  }

  lemma LabelTrimmed()
    ensures Trim(PriceUsdLabel) == PriceUsdLabel
  {
    TrimUnchanged(PriceUsdLabel);
  }

  /**
   * The project name: the trimmed text of the heading, or "Unknown Project" when the
   * page has no heading or its heading is blank. It is never empty.
   */
  function ProjectName(heading: Option<string>): string {
    match heading
    case None => UnknownProject
    case Some(text) => OrElse(Trim(text), UnknownProject)
  }

  /** The name is never empty: it is the trimmed heading, or "Unknown Project" when there is no heading or it is blank. */
  lemma ProjectNameDefault(heading: Option<string>)
    ensures ProjectName(heading) != ""
    ensures heading.None? || AllSpace(heading.value) ==> ProjectName(heading) == UnknownProject
    ensures heading.Some? && !AllSpace(heading.value) ==> ProjectName(heading) == Trim(heading.value)
  {
    if heading.Some? {
      TrimEmptyIff(heading.value);
    }
  }
}
