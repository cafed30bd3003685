/**
 * updateExtraEvents: the edit of one field of the one-time events carrying a given id.
 *
 * The page always hands the handler the text of an input box. As written, the handler
 * stores that text unchanged, so a numeric field edited by the user holds a string, and
 * the strict comparison `event.age === age` of the yearly scans can never hold for it.
 * `UpdateExtraEventsAsWritten` models that behaviour on JavaScript values;
 * `UpdateExtraEvents` is the corrected edit, which converts numeric fields to numbers and
 * is the one the planner uses.
 */
module Events {
  import opened Types
  import opened CashFlows

  /** The two kinds of value an event field can hold at run time. */
  datatype JsValue = JsNumber(n: real) | JsString(s: string)

  /** The fields of an event, as `keyof ExtraEvent`. */
  datatype EventField = Id | Amount | Age | Description

  /** An event as the page stores it: each field holds whatever value was last written to it. */
  datatype StoredEvent = StoredEvent(id: JsValue, amount: JsValue, age: JsValue, description: JsValue)

  /** The event has the shape its declared type promises: numbers in the numeric fields, text in the description. */
  predicate WellTyped(e: StoredEvent)
  {
    e.id.JsNumber? && e.amount.JsNumber? && e.age.JsNumber? && e.description.JsString?
  }

  /** A typed event as stored at run time. */
  function Stored(e: ExtraEvent): (r: StoredEvent)
    ensures WellTyped(r)
  {
    StoredEvent(JsNumber(e.id), JsNumber(e.amount), JsNumber(e.age), JsString(e.description))
  }

  /** The typed view of a well-typed stored event. */
  function Typed(e: StoredEvent): ExtraEvent
    requires WellTyped(e)
  {
    ExtraEvent(e.id.n, e.amount.n, e.age.n, e.description.s)
  }

  /** Storing and reading back are inverse on typed events and on well-typed stored ones. */
  lemma StoredRoundTrip(e: ExtraEvent, s: StoredEvent)
    ensures Typed(Stored(e)) == e
    ensures WellTyped(s) ==> Stored(Typed(s)) == s
  {
  }

  /** Every event of a list, stored. */
  function StoreAll(events: seq<ExtraEvent>): (r: seq<StoredEvent>)
    ensures |r| == |events|
    ensures forall i :: 0 <= i < |r| ==> r[i] == Stored(events[i])
  {
    if events == [] then [] else [Stored(events[0])] + StoreAll(events[1..])
  }

  /** JavaScript's `v === x` for a number `x`: a string is never strictly equal to a number. */
  predicate StrictEqualsNumber(v: JsValue, x: real)
  {
    v.JsNumber? && v.n == x
  }

  /** The value the handler writes: `typeof value === 'string' ? value : Number(value)`. */
  function Coerce(value: JsValue): JsValue
  {
    match value
    case JsString(_) => value
    case JsNumber(n) => JsNumber(n)
  }

  /** `{ ...item, [field]: v }` */
  function WithField(e: StoredEvent, field: EventField, v: JsValue): StoredEvent
  {
    match field
    case Id => e.(id := v)
    case Amount => e.(amount := v)
    case Age => e.(age := v)
    case Description => e.(description := v)
  }

  /** The value a stored event holds in `field`. */
  function FieldOf(e: StoredEvent, field: EventField): JsValue
  {
    match field
    case Id => e.id
    case Amount => e.amount
    case Age => e.age
    case Description => e.description
  }

  /**
   * The handler as written: every event whose id is strictly equal to `id` gets `field`
   * set to the coerced `value`; the others are kept, in order.
   */
  function UpdateExtraEventsAsWritten(events: seq<StoredEvent>, id: real, field: EventField, value: JsValue): (r: seq<StoredEvent>)
    ensures |r| == |events|
  {
    if events == [] then []
    else
      [if StrictEqualsNumber(events[0].id, id) then WithField(events[0], field, Coerce(value)) else events[0]]
      + UpdateExtraEventsAsWritten(events[1..], id, field, value)
  }

  /** The as-written edit acts on each event independently: the matching ones get the field, the rest are unchanged. */
  lemma {:induction false} AsWrittenAt(events: seq<StoredEvent>, id: real, field: EventField, value: JsValue, i: nat)
    requires i < |events|
    ensures FieldOf(UpdateExtraEventsAsWritten(events, id, field, value)[i], field)
      == if StrictEqualsNumber(events[i].id, id) then Coerce(value) else FieldOf(events[i], field)
    ensures forall f :: f != field ==> FieldOf(UpdateExtraEventsAsWritten(events, id, field, value)[i], f) == FieldOf(events[i], f)
  {
    if i > 0 {
      AsWrittenAt(events[1..], id, field, value, i - 1);
    }
  }

  /**
   * The discrepancy: any text typed into the age box of an event replaces its age by
   * that string, after which the event is no longer well typed and its age is strictly
   * equal to no number at all, so no yearly scan will ever count it.
   */
  lemma TextAgeNeverFallsDue(events: seq<StoredEvent>, id: real, i: nat, text: string)
    requires i < |events| && StrictEqualsNumber(events[i].id, id)
    ensures UpdateExtraEventsAsWritten(events, id, Age, JsString(text))[i].age == JsString(text)
    ensures !WellTyped(UpdateExtraEventsAsWritten(events, id, Age, JsString(text))[i])
    ensures forall x :: !StrictEqualsNumber(UpdateExtraEventsAsWritten(events, id, Age, JsString(text))[i].age, x)
  {
    AsWrittenAt(events, id, Age, JsString(text), i);
  }

  /** The same edit on one of the page's initial incomes: the event dated 60 no longer falls due at 60. */
  lemma InitialIncomeEditedLost()
    ensures var before := StoreAll([ExtraEvent(1.0, 0.0, 60.0, "Liquidazione Fondo Pensione 1")]);
            var after := UpdateExtraEventsAsWritten(before, 1.0, Age, JsString("60"));
            StrictEqualsNumber(before[0].age, 60.0) && !StrictEqualsNumber(after[0].age, 60.0)
  {
    var before := StoreAll([ExtraEvent(1.0, 0.0, 60.0, "Liquidazione Fondo Pensione 1")]);
    TextAgeNeverFallsDue(before, 1.0, 0, "60");
  }

  /** Only numeric fields are harmed: a text description keeps every event well typed. */
  lemma {:induction false} DescriptionEditWellTyped(events: seq<StoredEvent>, id: real, text: string)
    requires forall i :: 0 <= i < |events| ==> WellTyped(events[i])
    ensures forall i :: 0 <= i < |events| ==> WellTyped(UpdateExtraEventsAsWritten(events, id, Description, JsString(text))[i])
  {
    if events != [] {
      DescriptionEditWellTyped(events[1..], id, text);
      var r := UpdateExtraEventsAsWritten(events, id, Description, JsString(text));
      assert r == [r[0]] + UpdateExtraEventsAsWritten(events[1..], id, Description, JsString(text));
      forall i | 0 <= i < |events|
        ensures WellTyped(r[i])
      {
        if i > 0 {
          assert r[i] == UpdateExtraEventsAsWritten(events[1..], id, Description, JsString(text))[i - 1];
        }
      }
    }
  }

  // ---- the corrected edit ----

  /** The value a typed event receives: a number read from the text for numeric fields, the text itself for the description. */
  function FieldValue(field: EventField, text: string, toNumber: string -> real): JsValue
  {
    if field == Description then JsString(text) else JsNumber(toNumber(text))
  }

  /** One event with `field` set from `text`. */
  function SetField(e: ExtraEvent, field: EventField, text: string, toNumber: string -> real): (r: ExtraEvent)
    ensures Stored(r) == WithField(Stored(e), field, FieldValue(field, text, toNumber))
  {
    match field
    case Id => e.(id := toNumber(text))
    case Amount => e.(amount := toNumber(text))
    case Age => e.(age := toNumber(text))
    case Description => e.(description := text)
  }

  /**
   * The corrected handler: every event whose id equals `id` gets `field` set from
   * `text`, read as a number by `toNumber` when the field is numeric; the others are
   * kept, in order.
   */
  function UpdateExtraEvents(events: seq<ExtraEvent>, id: real, field: EventField, text: string, toNumber: string -> real): (r: seq<ExtraEvent>)
    ensures |r| == |events|
  {
    if events == [] then []
    else
      [if events[0].id == id then SetField(events[0], field, text, toNumber) else events[0]]
      + UpdateExtraEvents(events[1..], id, field, text, toNumber)
  }

  /** The corrected edit acts on each event independently. */
  lemma {:induction false} UpdateAt(events: seq<ExtraEvent>, id: real, field: EventField, text: string, toNumber: string -> real, i: nat)
    requires i < |events|
    ensures UpdateExtraEvents(events, id, field, text, toNumber)[i]
      == if events[i].id == id then SetField(events[i], field, text, toNumber) else events[i]
  {
    if i > 0 {
      UpdateAt(events[1..], id, field, text, toNumber, i - 1);
    }
  }

  /**
   * The corrected edit is the as-written handler handed the converted value: on the
   * stored events the two agree exactly, so the correction changes the conversion only.
   */
  lemma {:induction false} CorrectedIsConvertedAsWritten(events: seq<ExtraEvent>, id: real, field: EventField, text: string, toNumber: string -> real)
    ensures StoreAll(UpdateExtraEvents(events, id, field, text, toNumber))
      == UpdateExtraEventsAsWritten(StoreAll(events), id, field, FieldValue(field, text, toNumber))
  {
    if events != [] {
      CorrectedIsConvertedAsWritten(events[1..], id, field, text, toNumber);
      assert StoreAll(events)[1..] == StoreAll(events[1..]);
      assert StoreAll(UpdateExtraEvents(events, id, field, text, toNumber))[1..]
        == StoreAll(UpdateExtraEvents(events[1..], id, field, text, toNumber));
    }
  }

  /**
   * After the corrected edit of an age to a text that reads as `age`, the edited event
   * falls due in that year exactly as an event created with that age would.
   */
  lemma EditedAgeFallsDue(events: seq<ExtraEvent>, id: real, text: string, toNumber: string -> real, i: nat, age: int)
    requires i < |events| && events[i].id == id && toNumber(text) == age as real
    ensures UpdateExtraEvents(events, id, Age, text, toNumber)[i].age == age as real
    ensures Due(UpdateExtraEvents(events, id, Age, text, toNumber)[i], age) == (if events[i].amount > 0.0 then events[i].amount else 0.0)
  {
    UpdateAt(events, id, Age, text, toNumber, i);
  }

  /** Repeating an edit changes nothing more. */
  lemma {:induction false} UpdateIdempotent(events: seq<ExtraEvent>, id: real, field: EventField, text: string, toNumber: string -> real)
    ensures UpdateExtraEvents(UpdateExtraEvents(events, id, field, text, toNumber), id, field, text, toNumber)
      == UpdateExtraEvents(events, id, field, text, toNumber)
  {
    if events != [] {
      UpdateIdempotent(events[1..], id, field, text, toNumber);
      var once := UpdateExtraEvents(events, id, field, text, toNumber);
      assert once[1..] == UpdateExtraEvents(events[1..], id, field, text, toNumber);
    }
  }

  /** Events whose id differs from `id` are neither changed nor reordered; nothing is added or dropped. */
  lemma UpdateKeepsOthers(events: seq<ExtraEvent>, id: real, field: EventField, text: string, toNumber: string -> real)
    requires forall i :: 0 <= i < |events| ==> events[i].id != id
    ensures UpdateExtraEvents(events, id, field, text, toNumber) == events
  {
    var r := UpdateExtraEvents(events, id, field, text, toNumber);
    forall i | 0 <= i < |events|
      ensures r[i] == events[i]
    {
      UpdateAt(events, id, field, text, toNumber, i);
    }
  }
}
