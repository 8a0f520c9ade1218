/**
 * The vital-sign cards (src/components/medical/VitalSigns.tsx): which evaluation ranges each
 * card type uses, how a card's value is classified (a value `parseFloat` cannot read is
 * normal, with no message), the status label, and which slots of the grid render what.
 */
module VitalCards {
  import opened Wrappers
  import opened JsString
  import Utils

  /** The `type` prop of a card. */
  datatype CardType = BloodPressureCard | HeartRateCard | TemperatureCard | RespiratoryCard | OxygenCard | GlucoseCard

  /** `vitalTypeToEvalType`: the row of the ranges table a card type is classified with. */
  function EvalType(t: CardType): (e: Utils.VitalType)
    ensures e == Utils.BpSystolic <==> t == BloodPressureCard
    ensures e == Utils.HeartRateType <==> t == HeartRateCard || t == GlucoseCard
    ensures e == Utils.TempC <==> t == TemperatureCard
    ensures e == Utils.RespRate <==> t == RespiratoryCard
    ensures e == Utils.Spo2 <==> t == OxygenCard
    ensures e != Utils.BpDiastolic
  {
    match t
    case HeartRateCard => Utils.HeartRateType
    case BloodPressureCard => Utils.BpSystolic
    case TemperatureCard => Utils.TempC
    case RespiratoryCard => Utils.RespRate
    case OxygenCard => Utils.Spo2
    case GlucoseCard => Utils.HeartRateType
  }

  /** The `value` prop: a number, or a text such as the blood pressure's "120/80". */
  datatype CardValue = NumberValue(n: real) | TextValue(s: string)

  /** `typeof value === 'string' ? parseFloat(value) : value`; `None` is NaN. */
  function NumericValue(v: CardValue): (x: Option<real>)
    ensures v.NumberValue? ==> x == Some(v.n)
    ensures v.TextValue? ==> x == ParseFloat(v.s)
  {
    match v
    case NumberValue(n) => Some(n)
    case TextValue(s) => ParseFloat(s)
  }

  /** The card's evaluation: `evaluateVitalSign` on the card type's row, or normal with no message for NaN. */
  function CardEvaluation(t: CardType, v: CardValue): (e: Utils.VitalEvaluation)
    ensures NumericValue(v).None? ==> e == Utils.VitalEvaluation(Utils.VitalNormal, "")
    ensures NumericValue(v).Some? ==> e == Utils.EvaluateVitalSign(EvalType(t), NumericValue(v).value)
  {
    match NumericValue(v)
    case None => Utils.VitalEvaluation(Utils.VitalNormal, "")
    case Some(x) => Utils.EvaluateVitalSign(EvalType(t), x)
  }

  /** The message is empty exactly when the value is not a number, and such a value is always normal. */
  lemma EmptyMessageIffNaN(t: CardType, v: CardValue)
    ensures CardEvaluation(t, v).message == "" <==> NumericValue(v).None?
    ensures NumericValue(v).None? ==> CardEvaluation(t, v).status == Utils.VitalNormal
  {
  }

  /** A glucose card is classified exactly like a heart-rate card with the same value. */
  lemma GlucoseUsesHeartRateRanges(v: CardValue)
    ensures CardEvaluation(GlucoseCard, v) == CardEvaluation(HeartRateCard, v)
  {
  }

  /** A blood-pressure reading as the grid receives it; the model keeps whole, non-negative mmHg values. */
  datatype BloodPressure = BloodPressure(systolic: nat, diastolic: nat)

  /** `${systolic}/${diastolic}`. */
  function BpText(bp: BloodPressure): string {
    NatToString(bp.systolic) + "/" + NatToString(bp.diastolic)
  }

  /** The blood-pressure card is classified by its systolic reading alone: the diastolic one never matters. */
  lemma BloodPressureUsesSystolic(bp: BloodPressure)
    ensures NumericValue(TextValue(BpText(bp))) == Some(bp.systolic as real)
    ensures CardEvaluation(BloodPressureCard, TextValue(BpText(bp))) ==
              Utils.EvaluateVitalSign(Utils.BpSystolic, bp.systolic as real)
  {
    var tail := "/" + NatToString(bp.diastolic);
    assert BpText(bp) == NatToString(bp.systolic) + tail;
    ParseFloatOfNatToString(bp.systolic, tail);
  }

  /** The word an evaluation's status is written as. */
  function StatusWord(s: Utils.VitalStatus): string {
    match s
    case VitalNormal => "normal"
    case VitalWarning => "warning"
    case VitalCritical => "critical"
  }

  /** `w.charAt(0).toUpperCase() + w.slice(1)`. */
  function Capitalize(w: string): (r: string)
    ensures |r| == |w|
    ensures w != [] ==> r[0] == UpperChar(w[0]) && r[1..] == w[1..]
  {
    if w == [] then [] else ToUpper(w[..1]) + w[1..]
  }

  /** The status label: the status word with a capital first letter. */
  function StatusLabel(s: Utils.VitalStatus): (r: string)
    ensures s == Utils.VitalNormal ==> r == "Normal"
    ensures s == Utils.VitalWarning ==> r == "Warning"
    ensures s == Utils.VitalCritical ==> r == "Critical"
    ensures ToLower(r) == StatusWord(s)
  {
    var r := Capitalize(StatusWord(s));
    assert r[1..] == StatusWord(s)[1..];
    r
  }

  /** Different statuses get different labels. */
  lemma StatusLabelInjective(a: Utils.VitalStatus, b: Utils.VitalStatus)
    requires StatusLabel(a) == StatusLabel(b)
    ensures a == b
  {
    assert StatusWord(a) == ToLower(StatusLabel(a));
  }

  // ---------------------------------------------------------------- the grid

  /** The `vitals` prop of the grid; `None` is an absent field. */
  datatype GridVitals = GridVitals(
    bloodPressure: Option<BloodPressure>,
    heartRate: Option<real>,
    temperature: Option<real>,
    respiratoryRate: Option<real>,
    oxygenSaturation: Option<real>)

  /** The props of a rendered card. */
  datatype Card = Card(kind: CardType, value: CardValue, unit: string, heading: string)

  /**
   * What one `{field && <VitalSignCard …/>}` slot renders: a card, or, for a reading of 0, the
   * number 0 itself, which React writes out as the text "0".
   */
  datatype GridItem = CardItem(card: Card) | ZeroText(slot: CardType)

  /** The card type of the slot that produced an item. */
  function ItemKind(it: GridItem): CardType {
    match it
    case CardItem(c) => c.kind
    case ZeroText(k) => k
  }

  /** A number field is truthy when present and non-zero (NaN is not modelled). */
  predicate Truthy(x: Option<real>) {
    x.Some? && x.value != 0.0
  }

  /** `{reading && <VitalSignCard …/>}` for a number field. */
  function NumberSlot(reading: Option<real>, kind: CardType, unit: string, heading: string): (items: seq<GridItem>)
    ensures |items| <= 1
    ensures forall i :: 0 <= i < |items| ==> ItemKind(items[i]) == kind
    ensures items == [] <==> reading.None?
    ensures Truthy(reading) ==> items == [CardItem(Card(kind, NumberValue(reading.value), unit, heading))]
    ensures reading == Some(0.0) ==> items == [ZeroText(kind)]
  {
    match reading
    case None => []
    case Some(x) => if x != 0.0 then [CardItem(Card(kind, NumberValue(x), unit, heading))] else [ZeroText(kind)]
  }

  /** `{vitals.bloodPressure && …}`: an object is always truthy, so a present reading always gets a card. */
  function BloodPressureSlot(bp: Option<BloodPressure>): (items: seq<GridItem>)
    ensures |items| <= 1
    ensures forall i :: 0 <= i < |items| ==> ItemKind(items[i]) == BloodPressureCard
    ensures bp.None? ==> items == []
    ensures bp.Some? ==> items == [CardItem(Card(BloodPressureCard, TextValue(BpText(bp.value)), "mmHg", "Blood Pressure"))]
  {
    match bp
    case None => []
    case Some(b) => [CardItem(Card(BloodPressureCard, TextValue(BpText(b)), "mmHg", "Blood Pressure"))]
  }

  /** `VitalSignsGrid`: the five slots, in the order the markup writes them. */
  function Grid(g: GridVitals): (items: seq<GridItem>)
    ensures |items| <= 5
    ensures items == [] <==> g == GridVitals(None, None, None, None, None)
    ensures forall i :: 0 <= i < |items| ==> ItemKind(items[i]) != GlucoseCard
  {
    BloodPressureSlot(g.bloodPressure)
      + NumberSlot(g.heartRate, HeartRateCard, "bpm", "Heart Rate")
      + NumberSlot(g.temperature, TemperatureCard, "°C", "Temperature")
      + NumberSlot(g.respiratoryRate, RespiratoryCard, "/min", "Respiratory Rate")
      + NumberSlot(g.oxygenSaturation, OxygenCard, "%", "SpO₂")
  }

  /** Some card of the grid has this type. */
  ghost predicate HasCard(items: seq<GridItem>, k: CardType) {
    exists c :: CardItem(c) in items && c.kind == k
  }

  /**
   * A card is rendered for blood pressure exactly when it is present, and for every other
   * field exactly when it is truthy, so a zero reading gets no card; the grid has no glucose card.
   */
  lemma GridCardsIff(g: GridVitals)
    ensures HasCard(Grid(g), BloodPressureCard) <==> g.bloodPressure.Some?
    ensures HasCard(Grid(g), HeartRateCard) <==> Truthy(g.heartRate)
    ensures HasCard(Grid(g), TemperatureCard) <==> Truthy(g.temperature)
    ensures HasCard(Grid(g), RespiratoryCard) <==> Truthy(g.respiratoryRate)
    ensures HasCard(Grid(g), OxygenCard) <==> Truthy(g.oxygenSaturation)
    ensures !HasCard(Grid(g), GlucoseCard)
  {
    var items := Grid(g);
    forall c | CardItem(c) in items
      ensures c.kind != GlucoseCard
      ensures c.kind == HeartRateCard ==> Truthy(g.heartRate)
      ensures c.kind == TemperatureCard ==> Truthy(g.temperature)
      ensures c.kind == RespiratoryCard ==> Truthy(g.respiratoryRate)
      ensures c.kind == OxygenCard ==> Truthy(g.oxygenSaturation)
      ensures c.kind == BloodPressureCard ==> g.bloodPressure.Some?
    {
      var i :| 0 <= i < |items| && items[i] == CardItem(c);
      assert ItemKind(items[i]) == c.kind;
    }
    if g.bloodPressure.Some? {
      assert CardItem(Card(BloodPressureCard, TextValue(BpText(g.bloodPressure.value)), "mmHg", "Blood Pressure")) in items;
    }
    if Truthy(g.heartRate) {
      assert items[|BloodPressureSlot(g.bloodPressure)|] == CardItem(Card(HeartRateCard, NumberValue(g.heartRate.value), "bpm", "Heart Rate"));
    }
    if Truthy(g.temperature) {
      assert CardItem(Card(TemperatureCard, NumberValue(g.temperature.value), "°C", "Temperature")) in items;
    }
    if Truthy(g.respiratoryRate) {
      assert CardItem(Card(RespiratoryCard, NumberValue(g.respiratoryRate.value), "/min", "Respiratory Rate")) in items;
    }
    if Truthy(g.oxygenSaturation) {
      assert CardItem(Card(OxygenCard, NumberValue(g.oxygenSaturation.value), "%", "SpO₂")) in items;
    }
  }

  /** A zero number reading renders the stray text "0" in its slot instead of a card. */
  lemma ZeroReadingRendersZero(g: GridVitals)
    requires g.heartRate == Some(0.0)
    ensures ZeroText(HeartRateCard) in Grid(g)
    ensures !HasCard(Grid(g), HeartRateCard)
  {
    assert Grid(g)[|BloodPressureSlot(g.bloodPressure)|] == ZeroText(HeartRateCard);
    GridCardsIff(g);
  }

  /** The position of a card type's slot in the markup. */
  function SlotRank(k: CardType): nat {
    match k
    case BloodPressureCard => 0
    case HeartRateCard => 1
    case TemperatureCard => 2
    case RespiratoryCard => 3
    case OxygenCard => 4
    case GlucoseCard => 5
  }

  /** Items strictly in slot order, all before slot `bound`. */
  ghost predicate InSlotOrder(items: seq<GridItem>, bound: nat) {
    && (forall i :: 0 <= i < |items| ==> SlotRank(ItemKind(items[i])) < bound)
    && (forall i, j :: 0 <= i < j < |items| ==> SlotRank(ItemKind(items[i])) < SlotRank(ItemKind(items[j])))
  }

  /** Appending a slot of at most one item of a later kind keeps the order. */
  lemma AppendSlot(items: seq<GridItem>, slot: seq<GridItem>, k: CardType)
    requires InSlotOrder(items, SlotRank(k))
    requires |slot| <= 1 && forall i :: 0 <= i < |slot| ==> ItemKind(slot[i]) == k
    ensures InSlotOrder(items + slot, SlotRank(k) + 1)
  {
    var r := items + slot;
    forall i, j | 0 <= i < j < |r|
      ensures SlotRank(ItemKind(r[i])) < SlotRank(ItemKind(r[j]))
    {
      if j >= |items| {
        assert r[j] == slot[j - |items|] && i < |items| && r[i] == items[i];
      } else {
        assert r[i] == items[i] && r[j] == items[j];
      }
    }
    assert forall i :: 0 <= i < |r| ==> SlotRank(ItemKind(r[i])) < SlotRank(k) + 1 by {
      forall i | 0 <= i < |r|
        ensures SlotRank(ItemKind(r[i])) < SlotRank(k) + 1
      {
        if i < |items| { assert r[i] == items[i]; } else { assert r[i] == slot[i - |items|]; }
      }
    }
  }

  /** A slot renders at most one item, of the slot's own kind. */
  ghost predicate SlotOf(slot: seq<GridItem>, k: CardType) {
    |slot| <= 1 && forall i :: 0 <= i < |slot| ==> ItemKind(slot[i]) == k
  }

  /** Five slots of the five grid kinds, written one after another, are in slot order. */
  lemma {:induction false} FiveSlotsInOrder(s0: seq<GridItem>, s1: seq<GridItem>, s2: seq<GridItem>,
                                            s3: seq<GridItem>, s4: seq<GridItem>)
    requires SlotOf(s0, BloodPressureCard) && SlotOf(s1, HeartRateCard) && SlotOf(s2, TemperatureCard)
    requires SlotOf(s3, RespiratoryCard) && SlotOf(s4, OxygenCard)
    ensures InSlotOrder(s0 + s1 + s2 + s3 + s4, SlotRank(OxygenCard) + 1)
  {
    AppendSlot([], s0, BloodPressureCard);
    assert [] + s0 == s0;
    AppendSlot(s0, s1, HeartRateCard);
    AppendSlot(s0 + s1, s2, TemperatureCard);
    AppendSlot(s0 + s1 + s2, s3, RespiratoryCard);
    AppendSlot(s0 + s1 + s2 + s3, s4, OxygenCard);
  }

  /** The grid renders at most one item per slot, in the order blood pressure, heart rate, temperature, respiration, SpO2. */
  lemma GridInSlotOrder(g: GridVitals)
    ensures InSlotOrder(Grid(g), SlotRank(OxygenCard) + 1)
    ensures |Grid(g)| <= 5
  {
    FiveSlotsInOrder(BloodPressureSlot(g.bloodPressure),
                     NumberSlot(g.heartRate, HeartRateCard, "bpm", "Heart Rate"),
                     NumberSlot(g.temperature, TemperatureCard, "°C", "Temperature"),
                     NumberSlot(g.respiratoryRate, RespiratoryCard, "/min", "Respiratory Rate"),
                     NumberSlot(g.oxygenSaturation, OxygenCard, "%", "SpO₂"));
  }

  /** Each rendered card carries its field's reading: the number itself, or the blood pressure's text. */
  lemma GridCardsCarryReadings(g: GridVitals, c: Card)
    requires CardItem(c) in Grid(g)
    ensures c.kind == BloodPressureCard ==> g.bloodPressure.Some? && c.value == TextValue(BpText(g.bloodPressure.value))
    ensures c.kind == HeartRateCard ==> g.heartRate.Some? && c.value == NumberValue(g.heartRate.value)
    ensures c.kind == TemperatureCard ==> g.temperature.Some? && c.value == NumberValue(g.temperature.value)
    ensures c.kind == RespiratoryCard ==> g.respiratoryRate.Some? && c.value == NumberValue(g.respiratoryRate.value)
    ensures c.kind == OxygenCard ==> g.oxygenSaturation.Some? && c.value == NumberValue(g.oxygenSaturation.value)
  {
    var items := Grid(g);
    var i :| 0 <= i < |items| && items[i] == CardItem(c);
    assert ItemKind(items[i]) == c.kind;
  }
}
