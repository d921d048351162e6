/**
 * The decision rules of one exam card, with the rendering stripped away: which
 * colour tier a status string gets, whether the two values can be charted and
 * with which points, which trend icon is shown, which placeholder replaces the
 * chart, and when the urgent banner appears. Colours and icons are tags.
 */
module MetricCard {
  import opened Types
  import opened Text

  // ---------------------------------------------------------------------------
  // Chart eligibility and chart data

  predicate IsNumeric(v: ObsValue) { v.Numeric? }

  predicate IsString(v: ObsValue) { v.Qualitative? }

  /**
   * Some slot holds a qualitative (string) result: a slot is a string exactly
   * when it is neither a number nor null.
   */
  predicate HasStringValue(d: ExamDataPoint): (r: bool)
    ensures r <==> !(d.value1.Numeric? || d.value1.Missing?) || !(d.value2.Numeric? || d.value2.Missing?)
  {
    IsString(d.value1) || IsString(d.value2)
  }

  /**
   * A chart is drawn when no slot is a string and at least one is a number:
   * exactly the three pairs number/number, number/missing and missing/number,
   * so a string anywhere or two missing values give no chart.
   */
  predicate CanShowChart(d: ExamDataPoint): (r: bool)
    ensures r <==>
      || (d.value1.Numeric? && d.value2.Numeric?)
      || (d.value1.Numeric? && d.value2.Missing?)
      || (d.value1.Missing? && d.value2.Numeric?)
    ensures d.value1.Qualitative? || d.value2.Qualitative? ==> !r
    ensures d.value1.Missing? && d.value2.Missing? ==> !r
  {
    !HasStringValue(d) && (IsNumeric(d.value1) || IsNumeric(d.value2))
  }

  datatype ChartPoint = ChartPoint(name: string, value: real, fullDate: Option<string>)

  /** The bar height of one slot: its number, or 0 for anything else. */
  function PointValue(v: ObsValue): (r: real)
    ensures v.Numeric? ==> r == v.n
    ensures !v.Numeric? ==> r == 0.0
  {
    match v
    case Numeric(n) => n
    case _ => 0.0
  }

  /** The two bars, earlier date first. */
  function ChartData(d: ExamDataPoint): (r: seq<ChartPoint>)
    ensures |r| == 2
    ensures r[0].name == "Set" && r[1].name == "Dez"
    ensures r[0].value == PointValue(d.value1) && r[1].value == PointValue(d.value2)
    ensures r[0].fullDate == d.date1 && r[1].fullDate == d.date2
  {
    [ChartPoint("Set", PointValue(d.value1), d.date1),
     ChartPoint("Dez", PointValue(d.value2), d.date2)]
  }

  /** A chartable record with one missing slot draws that slot as a zero bar beside the real one. */
  lemma MissingChartsAsZero(d: ExamDataPoint)
    requires CanShowChart(d)
    ensures d.value1.Missing? ==> ChartData(d)[0].value == 0.0 && ChartData(d)[1].value == d.value2.n
    ensures d.value2.Missing? ==> ChartData(d)[1].value == 0.0 && ChartData(d)[0].value == d.value1.n
  {
  }

  const QualitativeText := "Resultado qualitativo"
  const NoChartText := "Gráfico indisponível"

  datatype ChartArea = BarChart(points: seq<ChartPoint>) | Placeholder(text: string)

  /** The chart region of a card: the bar chart, or a placeholder saying why there is none. */
  function ChartRegion(d: ExamDataPoint): (r: ChartArea)
    ensures r.BarChart? <==> CanShowChart(d)
    ensures r.BarChart? ==> r.points == ChartData(d)
    ensures r.Placeholder? ==> (r.text == QualitativeText <==> HasStringValue(d))
    ensures r.Placeholder? ==> (r.text == NoChartText <==> d.value1.Missing? && d.value2.Missing?)
    ensures r.Placeholder? ==> r.text == QualitativeText || r.text == NoChartText
  {
    if CanShowChart(d) then BarChart(ChartData(d))
    else Placeholder(if HasStringValue(d) then QualitativeText else NoChartText)
  }

  // ---------------------------------------------------------------------------
  // Status colour

  datatype CardTier = Emerald | Amber | Rose

  /** The keywords, already in lower case, that choose each of the two upper tiers. */
  const EmeraldKeywords: seq<string> := ["normal", "negativo", "ausentes"]
  const AmberKeywords: seq<string> := ["limítrofe", "levemente", "baixo"]

  ghost predicate HasKeyword(keywords: seq<string>, s: string)
  {
    exists k :: k in keywords && Occurs(k, s)
  }

  /**
   * `getStatusColor`: emerald when the lower-cased status contains an emerald
   * keyword; otherwise amber when it contains an amber keyword; otherwise rose.
   */
  function StatusColor(status: string): (r: CardTier)
    ensures r == Emerald <==> HasKeyword(EmeraldKeywords, ToLower(status))
    ensures r == Amber <==>
      !HasKeyword(EmeraldKeywords, ToLower(status)) && HasKeyword(AmberKeywords, ToLower(status))
    ensures r == Rose <==>
      !HasKeyword(EmeraldKeywords, ToLower(status)) && !HasKeyword(AmberKeywords, ToLower(status))
  {
    var s := ToLower(status);
    ContainsIffOccurs(s, "normal");
    ContainsIffOccurs(s, "negativo");
    ContainsIffOccurs(s, "ausentes");
    ContainsIffOccurs(s, "limítrofe");
    ContainsIffOccurs(s, "levemente");
    ContainsIffOccurs(s, "baixo");
    if Contains(s, "normal") || Contains(s, "negativo") || Contains(s, "ausentes") then Emerald
    else if Contains(s, "limítrofe") || Contains(s, "levemente") || Contains(s, "baixo") then Amber
    else Rose
  }

  /** Every keyword is its own lower-case form, so writing it in any case still matches. */
  lemma KeywordsAreLowerCase()
    ensures forall k :: k in EmeraldKeywords ==> ToLower(k) == k
    ensures forall k :: k in AmberKeywords ==> ToLower(k) == k
  {
    forall k | k in EmeraldKeywords + AmberKeywords ensures ToLower(k) == k {
      assert forall i :: 0 <= i < |k| ==> !IsUpper(k[i]);
    }
  }

  /**
   * A word that lower-cases to an emerald keyword makes the status emerald
   * wherever it stands and whatever surrounds it, amber keywords included.
   */
  lemma EmeraldAnywhere(pre: string, word: string, post: string)
    requires ToLower(word) in EmeraldKeywords
    ensures StatusColor(pre + word + post) == Emerald
  {
    var s := pre + word + post;
    assert s[|pre|..|pre| + |word|] == word;
    assert OccursAt(word, s, |pre|);
    OccursLowered(word, s);
  }

  /** A word that lower-cases to an amber keyword makes the status amber unless an emerald keyword is present. */
  lemma AmberAnywhere(pre: string, word: string, post: string)
    requires ToLower(word) in AmberKeywords
    requires !HasKeyword(EmeraldKeywords, ToLower(pre + word + post))
    ensures StatusColor(pre + word + post) == Amber
  {
    var s := pre + word + post;
    assert s[|pre|..|pre| + |word|] == word;
    assert OccursAt(word, s, |pre|);
    OccursLowered(word, s);
  }

  /** Emerald takes precedence: "normal baixo" holds an amber keyword and is still emerald. */
  lemma NormalBaixoIsEmerald()
    ensures StatusColor("normal baixo") == Emerald
  {
    KeywordsAreLowerCase();
    assert ToLower("normal") == "normal";
    EmeraldAnywhere("", "normal", " baixo");
    assert "" + "normal" + " baixo" == "normal baixo";
  }

  /** The status decides the tier only through its lower-cased form. */
  lemma StatusColorIgnoresCase(s: string, t: string)
    requires ToLower(s) == ToLower(t)
    ensures StatusColor(s) == StatusColor(t)
  {
  }

  // ---------------------------------------------------------------------------
  // Trend icon

  datatype Glyph = TrendingDown | TrendingUp | Minus

  datatype Tone = Emerald500 | Rose500 | Slate400 | Slate300

  datatype Icon = Icon(glyph: Glyph, tone: Tone)

  /** `getTrendIcon`: the icon for a trend when lower is better. */
  function TrendIcon(t: Trend): (r: Icon)
    ensures t == Improved <==> r == Icon(TrendingDown, Emerald500)
    ensures t == Worsened <==> r == Icon(TrendingUp, Rose500)
    ensures t == Stable <==> r == Icon(Minus, Slate400)
    ensures t == Unknown <==> r == Icon(Minus, Slate300)
  {
    match t
    case Improved => Icon(TrendingDown, Emerald500)
    case Worsened => Icon(TrendingUp, Rose500)
    case Stable => Icon(Minus, Slate400)
    case _ => Icon(Minus, Slate300)
  }

  /** The one record, HDL cholesterol, for which a higher value is better. */
  const HdlId := "hdl"

  /** The icon a card shows: the HDL record gets its own two-way rule, every other record `TrendIcon`. */
  function EffectiveTrendIcon(d: ExamDataPoint): (r: Icon)
    ensures d.id != HdlId ==> r == TrendIcon(d.trend)
    ensures d.id == HdlId ==> (r == Icon(TrendingDown, Rose500) <==> d.trend == Worsened)
    ensures d.id == HdlId ==> (r == Icon(TrendingUp, Emerald500) <==> d.trend != Worsened)
  {
    if d.id == HdlId then
      (if d.trend == Worsened then Icon(TrendingDown, Rose500) else Icon(TrendingUp, Emerald500))
    else TrendIcon(d.trend)
  }

  /**
   * For HDL the direction of the arrow is inverted against any other record with
   * the same improving or worsening trend, while its colour keeps the same meaning.
   */
  lemma HdlPolarityInverted(hdl: ExamDataPoint, other: ExamDataPoint)
    requires hdl.id == HdlId && other.id != HdlId
    requires hdl.trend == other.trend && (hdl.trend == Improved || hdl.trend == Worsened)
    ensures EffectiveTrendIcon(hdl).glyph != EffectiveTrendIcon(other).glyph
    ensures EffectiveTrendIcon(hdl).tone == EffectiveTrendIcon(other).tone
  {
  }

  /** The HDL icon depends on the trend alone, never on the measured values. */
  lemma HdlIconIgnoresValues(d: ExamDataPoint, e: ExamDataPoint)
    requires d.id == HdlId && e.id == HdlId && d.trend == e.trend
    ensures EffectiveTrendIcon(d) == EffectiveTrendIcon(e)
  {
  }

  // ---------------------------------------------------------------------------
  // Value slots and the whole card

  const NotMeasuredText := "Não medido"

  datatype Rendered = Italic(text: string) | WithUnit(value: ObsValue, unit: string)

  /** `renderValue`: an absent value reads "Não medido"; any other is shown with its unit. */
  function RenderValue(v: ObsValue, unit: string): (r: Rendered)
    ensures r.Italic? <==> v.Missing?
    ensures r.Italic? ==> r.text == NotMeasuredText
    ensures r.WithUnit? ==> r.value == v && r.unit == unit
  {
    if v.Missing? then Italic(NotMeasuredText) else WithUnit(v, unit)
  }

  datatype SlotView = Plain(text: string) | Badge(tier: CardTier, content: Rendered)

  /** One date column of a card: a coloured badge around the value, or "Não medido" when absent. */
  function SlotOf(v: ObsValue, status: string, unit: string): (r: SlotView)
    ensures r.Plain? <==> v.Missing?
    ensures r.Plain? ==> r.text == NotMeasuredText
    ensures r.Badge? ==> r.tier == StatusColor(status) && r.content == WithUnit(v, unit)
  {
    if !v.Missing? then Badge(StatusColor(status), RenderValue(v, unit)) else Plain(NotMeasuredText)
  }

  /** A missing value shows "Não medido" whatever its status says. */
  lemma MissingIgnoresStatus(status1: string, status2: string, unit: string)
    ensures SlotOf(Missing, status1, unit) == SlotOf(Missing, status2, unit) == Plain(NotMeasuredText)
  {
  }

  /** The id of the record that carries the urgent medical-attention banner. */
  const CpkId := "cpk"

  datatype CardView = CardView(
    icon: Icon,
    slot1: SlotView,
    slot2: SlotView,
    alertBanner: bool,
    chart: ChartArea,
    observation: string)

  /** Everything a card decides about one record. */
  function Card(d: ExamDataPoint): (r: CardView)
    ensures r.icon == EffectiveTrendIcon(d)
    ensures r.alertBanner <==> d.id == CpkId
    ensures r.slot1 == SlotOf(d.value1, d.status1, d.unit) && r.slot2 == SlotOf(d.value2, d.status2, d.unit)
    ensures r.chart == ChartRegion(d)
    ensures r.observation == d.observation
  {
    CardView(
      EffectiveTrendIcon(d),
      SlotOf(d.value1, d.status1, d.unit),
      SlotOf(d.value2, d.status2, d.unit),
      d.id == CpkId,
      ChartRegion(d),
      d.observation)
  }
}
