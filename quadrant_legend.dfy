/** The quadrant legend of src/components/QuadrantLegend.tsx: four buttons
    in a fixed order that, when a handler is given, toggle a quadrant
    filter. */
module QuadrantLegend {
  import opened Types
  import Utils

  /** The order the legend lists the quadrants in. */
  const Quadrants: seq<QuadrantCode> := [HH, HL, LH, LL]

  /** `onSelect?.(...)`: with no handler nothing is sent; otherwise the
      handler gets the selection toggled at `q`. */
  function Click(hasHandler: bool, selected: Option<QuadrantCode>, q: QuadrantCode)
    : (sent: Option<Option<QuadrantCode>>)
    ensures sent.Some? <==> hasHandler
    ensures sent.Some? ==> sent.value == Toggle(selected, q)
  {
    if hasHandler then Some(Toggle(selected, q)) else None
  }

  /** One legend button: its quadrant, whether it is disabled, ringed or
      dimmed, its swatch colour and its text. */
  datatype Button = Button(
    code: QuadrantCode,
    disabled: bool,
    ring: bool,
    dimmed: bool,
    swatch: string,
    text: string)

  function ButtonFor(q: QuadrantCode, selected: Option<QuadrantCode>, hasHandler: bool,
                     showDescriptions: bool): Button
  {
    Button(
      q,
      !hasHandler,
      selected == Some(q),
      selected.Some? && selected != Some(q),
      Utils.QuadrantColor(q),
      if showDescriptions then Utils.QuadrantDescription(q) else Utils.QuadrantLabel(q))
  }

  /** The rendered legend. */
  function Legend(selected: Option<QuadrantCode>, hasHandler: bool, showDescriptions: bool)
    : (r: seq<Button>)
    ensures |r| == 4
    ensures forall i :: 0 <= i < 4 ==> r[i].code == Quadrants[i]
    ensures forall i :: 0 <= i < 4 ==> (r[i].disabled <==> !hasHandler)
    ensures forall i :: 0 <= i < 4 ==> r[i].swatch == Utils.QuadrantColor(Quadrants[i])
    ensures forall i :: 0 <= i < 4 ==>
      r[i].text == if showDescriptions then Utils.QuadrantDescription(Quadrants[i])
                   else Utils.QuadrantLabel(Quadrants[i])
  {
    seq(4, i requires 0 <= i < 4 => ButtonFor(Quadrants[i], selected, hasHandler, showDescriptions))
  }

  /** Every quadrant has exactly one button. */
  lemma LegendListsEachQuadrantOnce(selected: Option<QuadrantCode>, hasHandler: bool, showDescriptions: bool,
                                    q: QuadrantCode)
    ensures exists i :: 0 <= i < 4 && Legend(selected, hasHandler, showDescriptions)[i].code == q
    ensures forall i, j :: 0 <= i < j < 4 ==>
      Legend(selected, hasHandler, showDescriptions)[i].code != Legend(selected, hasHandler, showDescriptions)[j].code
  {
    var r := Legend(selected, hasHandler, showDescriptions);
    var i := match q case HH => 0 case HL => 1 case LH => 2 case LL => 3;
    assert r[i].code == Quadrants[i] == q;
    forall i, j | 0 <= i < j < 4
      ensures r[i].code != r[j].code
    {
      QuadrantsDistinct(i, j);
    }
  }

  lemma QuadrantsDistinct(i: int, j: int)
    requires 0 <= i < j < 4
    ensures Quadrants[i] != Quadrants[j]
  {
  }

  /** The ring marks the selected quadrant and nothing else; with a
      selection every other button is dimmed, without one none is. */
  lemma RingAndDimming(selected: Option<QuadrantCode>, hasHandler: bool, showDescriptions: bool, i: int)
    requires 0 <= i < 4
    ensures var b := Legend(selected, hasHandler, showDescriptions)[i];
      && (b.ring <==> selected == Some(b.code))
      && (b.dimmed <==> selected.Some? && !b.ring)
      && !(b.ring && b.dimmed)
      && (selected == None ==> !b.ring && !b.dimmed)
  {
  }

  /** At most one button has the ring. */
  lemma AtMostOneRing(selected: Option<QuadrantCode>, hasHandler: bool, showDescriptions: bool, i: int, j: int)
    requires 0 <= i < 4 && 0 <= j < 4
    requires Legend(selected, hasHandler, showDescriptions)[i].ring
    requires Legend(selected, hasHandler, showDescriptions)[j].ring
    ensures i == j
  {
    LegendListsEachQuadrantOnce(selected, hasHandler, showDescriptions, HH);
  }

  /** After a click on `q` in an interactive legend, `q` carries the ring
      exactly when it was not selected before. */
  lemma ClickMovesRing(selected: Option<QuadrantCode>, showDescriptions: bool, q: QuadrantCode, i: int)
    requires 0 <= i < 4 && Quadrants[i] == q
    ensures Legend(Click(true, selected, q).value, true, showDescriptions)[i].ring <==> selected != Some(q)
  {
  }
}
