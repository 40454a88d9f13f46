/** The override of the quote line-item grid in the administration: a
    "Quote Price" column in front of the grid's own columns, and the
    accessors of a line item's `customFields.persistPrice` flag. */
module QuoteLineItems {
  import opened Common

  const PersistPriceKey: string := "persistPrice"

  /** A grid column definition (the keys the override sets). */
  datatype Column = Column(
    property: string,
    columnLabel: string,  // `label`
    inlineEdit: bool,
    sortable: bool,
    align: string,
    allowResize: bool)

  /** The column the override puts first. */
  const PersistPriceColumn: Column := Column(PersistPriceKey, "Quote Price", true, false, "right", true)

  /** `columns()`: the base grid's columns with the persist-price column
      put in front of them by `unshift`. */
  function Columns(baseColumns: seq<Column>): (columns: seq<Column>)
    ensures |columns| == |baseColumns| + 1
    ensures columns[0] == PersistPriceColumn
    ensures forall i :: 0 <= i < |baseColumns| ==> columns[i + 1] == baseColumns[i]
    ensures multiset(columns) == multiset(baseColumns) + multiset{PersistPriceColumn}
  {
    [PersistPriceColumn] + baseColumns
  }

  /** A quote line item as the grid edits it; None is a missing
      `customFields` object. */
  class LineItem {
    var customFields: Option<map<string, Json>>

    constructor (customFields: Option<map<string, Json>>)
      ensures this.customFields == customFields
    {
      this.customFields := customFields;
    }
  }

  /** `customFields?.persistPrice ?? false` on a line item's custom fields:
      false when they or the key are missing or the value is null, the
      stored value otherwise. */
  function PersistPriceOf(customFields: Option<map<string, Json>>): (v: Json)
    ensures v == JBool(false)
            || (&& customFields.Some? && PersistPriceKey in customFields.value
                && customFields.value[PersistPriceKey] != JNull
                && v == customFields.value[PersistPriceKey])
    ensures customFields.Some? && PersistPriceKey in customFields.value
            && customFields.value[PersistPriceKey] != JNull
            ==> v == customFields.value[PersistPriceKey]
  {
    match customFields
    case None => JBool(false)
    case Some(fields) =>
      if PersistPriceKey in fields && fields[PersistPriceKey] != JNull then fields[PersistPriceKey]
      else JBool(false)
  }

  /** `getPersistPrice(item)`: also false for a missing item. */
  function GetPersistPrice(item: LineItem?): (v: Json)
    reads item
    ensures item == null ==> v == JBool(false)
    ensures item != null ==> v == PersistPriceOf(item.customFields)
  {
    if item == null then JBool(false) else PersistPriceOf(item.customFields)
  }

  /** The custom fields after `setPersistPrice`: an empty object when there
      were none, then the key set to the value. */
  function WithPersistPrice(customFields: Option<map<string, Json>>, value: Json): (r: map<string, Json>)
    ensures PersistPriceKey in r && r[PersistPriceKey] == value
    ensures r.Keys == (if customFields.Some? then customFields.value.Keys else {}) + {PersistPriceKey}
  {
    (if customFields.Some? then customFields.value else map[])[PersistPriceKey := value]
  }

  /** Setting a value that is not null makes the getter return it; setting
      null makes the getter fall back to false. */
  lemma GetAfterSet(customFields: Option<map<string, Json>>, value: Json)
    ensures value != JNull ==> PersistPriceOf(Some(WithPersistPrice(customFields, value))) == value
    ensures value == JNull ==> PersistPriceOf(Some(WithPersistPrice(customFields, value))) == JBool(false)
  {
  }

  /** Every other custom field keeps its value. */
  lemma SetKeepsOthers(customFields: map<string, Json>, value: Json, key: string)
    requires key != PersistPriceKey
    ensures key in WithPersistPrice(Some(customFields), value) <==> key in customFields
    ensures key in customFields ==> WithPersistPrice(Some(customFields), value)[key] == customFields[key]
  {
  }

  /** `setPersistPrice(item, value)`: updates the item's custom fields in
      place. */
  method SetPersistPrice(item: LineItem, value: Json)
    modifies item
    ensures item.customFields == Some(WithPersistPrice(old(item.customFields), value))
  {
    if item.customFields.None? {
      item.customFields := Some(map[]);
    }
    item.customFields := Some(item.customFields.value[PersistPriceKey := value]);
  }
}
