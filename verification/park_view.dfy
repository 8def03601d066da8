/** The listing of parked interactions shown by the park-interaction view:
    the pure part of `getParkedInteractions`, from the items read out of the
    worker's hosted map to the sorted display list. Fetching the map, showing
    the error notification and rendering the table are left to the caller; the
    items the fetch produced (or `None` when it failed or produced nothing) are
    an input. */
module ParkView {
  import opened Shared
  import StableSort

  /** `taskAttributes.customers` of a parked interaction. */
  datatype Customers = Customers(phone: Option<string>, email: Option<string>)

  /** The (already parsed) `taskAttributes` of a parked interaction. */
  datatype TaskAttributes = TaskAttributes(customers: Option<Customers>, from: Option<string>)

  /** The `data` of a map item: the record stored when an interaction was parked. */
  datatype ParkedInteraction = ParkedInteraction(
    taskChannelUniqueName: string,
    conversationType: Option<string>,
    taskAttributes: TaskAttributes,
    webhookSid: string)

  /** One value returned by the map read. `NotObject` stands for `null` or any
      non-object value. `dateCreated` is the descriptor's creation time when it
      is set (a timestamp), `dateUpdated` the item's update time when set. */
  datatype MapItem =
    | NotObject
    | Entry(key: Option<string>, data: ParkedInteraction, dateCreated: Option<int>, dateUpdated: Option<int>)

  /** One row of the display list. */
  datatype RecentInteraction = RecentInteraction(
    key: string,
    channel: string,
    address: Option<string>,
    customerName: Option<string>,
    parkingDate: int,
    webhookSid: string)

  /** The view's state that a listing reads and writes. */
  datatype ViewState = ViewState(recent: seq<RecentInteraction>, isLoaded: bool, deletedMapItem: string)

  // ---------------------------------------------------------------- filtering

  /** An item survives the filter: an object with a key other than the key
      that was just deleted. */
  predicate Kept(item: MapItem, deleted: string) {
    item.Entry? && item.key.Some? && item.key.value != deleted
  }

  /** The items that survive the filter, in their original order. */
  function KeptItems(items: seq<MapItem>, deleted: string): (r: seq<MapItem>)
    ensures |r| <= |items|
    ensures forall i :: 0 <= i < |r| ==> Kept(r[i], deleted)
  {
    if |items| == 0 then []
    else if Kept(items[0], deleted) then [items[0]] + KeptItems(items[1..], deleted)
    else KeptItems(items[1..], deleted)
  }

  /** The filter drops exactly the non-objects, the keyless items and the
      just-deleted key: every other item is kept. */
  lemma {:induction false} KeptItemsMember(items: seq<MapItem>, deleted: string, x: MapItem)
    ensures x in KeptItems(items, deleted) <==> x in items && Kept(x, deleted)
  {
    if |items| > 0 {
      KeptItemsMember(items[1..], deleted, x);
      assert items == [items[0]] + items[1..];
    }
  }

  // ---------------------------------------------------------- display fields

  /** Upper-casing of one character, over ASCII letters only. */
  function UpperChar(c: char): char {
    if 'a' <= c <= 'z' then (c as int - 32) as char else c
  }

  /** `s[0].toUpperCase() + s.slice(1)`; the empty string has no first
      character, so `getParkedInteractions` would throw on it. */
  function Capitalize(s: string): (r: string)
    requires |s| > 0
    ensures |r| == |s| && r[1..] == s[1..]
    ensures 'a' <= s[0] <= 'z' ==> r[0] as int == s[0] as int - 32
    ensures !('a' <= s[0] <= 'z') ==> r[0] == s[0]
  {
    [UpperChar(s[0])] + s[1..]
  }

  /** Capitalising changes at most the first character, upper-cases it, and
      is idempotent. */
  lemma CapitalizeProperties(s: string)
    requires |s| > 0
    ensures Capitalize(s)[1..] == s[1..]
    ensures !('a' <= Capitalize(s)[0] <= 'z')
    ensures !('a' <= s[0] <= 'z') ==> Capitalize(s) == s
    ensures Capitalize(Capitalize(s)) == Capitalize(s)
  {
    if !('a' <= s[0] <= 'z') {
      assert Capitalize(s) == [s[0]] + s[1..] == s;
    }
  }

  /** The channel label: the capitalised channel name, followed by the
      capitalised conversation type in parentheses when that type is set and
      differs from the raw channel name. */
  function ChannelLabel(data: ParkedInteraction): (r: string)
    requires |data.taskChannelUniqueName| > 0
    ensures |r| >= |data.taskChannelUniqueName|
    ensures r[..|data.taskChannelUniqueName|] == Capitalize(data.taskChannelUniqueName)
    ensures |r| > |data.taskChannelUniqueName| <==>
      Truthy(data.conversationType) && data.conversationType.value != data.taskChannelUniqueName
  {
    var base := Capitalize(data.taskChannelUniqueName);
    if Truthy(data.conversationType) && data.conversationType.value != data.taskChannelUniqueName then
      base + " (" + Capitalize(data.conversationType.value) + ")"
    else
      base
  }

  /** Reading a label back: it starts with the capitalised channel name; it
      is longer than the channel name exactly when a distinct conversation type
      is set, and then the rest is " (", the capitalised type, and ")". */
  lemma ChannelLabelParts(data: ParkedInteraction)
    requires |data.taskChannelUniqueName| > 0
    ensures var text := ChannelLabel(data);
      var ch := data.taskChannelUniqueName;
      var ct := data.conversationType;
      && |text| >= |ch|
      && text[..|ch|] == Capitalize(ch)
      && (|text| > |ch| <==> Truthy(ct) && ct.value != ch)
      && (|text| > |ch| ==>
            && text[|ch|..|ch| + 2] == " ("
            && text[|ch| + 2..|text| - 1] == Capitalize(ct.value)
            && text[|text| - 1] == ')')
  {
  }

  /** `customers?.phone || customers?.email`: the phone when it is a
      non-empty string, otherwise whatever the e-mail property holds. */
  function Address(attrs: TaskAttributes): (r: Option<string>)
    ensures r.Some? ==> attrs.customers.Some?
    ensures attrs.customers.Some? ==>
      r == attrs.customers.value.phone || r == attrs.customers.value.email
    ensures attrs.customers.Some? && Truthy(attrs.customers.value.phone) ==> r == attrs.customers.value.phone
  {
    match attrs.customers
    case None => None
    case Some(c) => if Truthy(c.phone) then c.phone else c.email
  }

  /** The address column shows a non-empty phone in preference to anything
      else, and falls back to the e-mail property unchanged. */
  lemma AddressChoice(attrs: TaskAttributes)
    ensures attrs.customers.None? ==> Address(attrs).None?
    ensures attrs.customers.Some? && Truthy(attrs.customers.value.phone) ==>
      Address(attrs) == attrs.customers.value.phone
    ensures attrs.customers.Some? && !Truthy(attrs.customers.value.phone) ==>
      Address(attrs) == attrs.customers.value.email
    ensures Truthy(Address(attrs)) ==>
      exists c :: attrs.customers == Some(c) && Address(attrs) in {c.phone, c.email}
  {
  }

  /** An item that can be formatted: an object with a non-empty channel name
      (the label code indexes its first character) and at least one of the two
      timestamps (without one, the sort comparator yields NaN). */
  predicate Renderable(item: MapItem) {
    item.Entry? && |item.data.taskChannelUniqueName| > 0
    && (item.dateCreated.Some? || item.dateUpdated.Some?)
  }

  /** The parking time: the descriptor's creation time when present,
      otherwise the update time (equal to it right after creation). */
  function ParkingDate(item: MapItem): (r: int)
    requires item.Entry? && (item.dateCreated.Some? || item.dateUpdated.Some?)
    ensures item.dateCreated == Some(r) || (item.dateCreated.None? && item.dateUpdated == Some(r))
  {
    if item.dateCreated.Some? then item.dateCreated.value else item.dateUpdated.value
  }

  /** One display row built from a kept item: it carries the item's key,
      webhook SID and customer name unchanged, a label starting with the
      capitalised channel name, the address chosen from the customer's
      contacts, and one of the item's two timestamps, preferring the creation
      time. */
  function Format(item: MapItem): (r: RecentInteraction)
    requires Renderable(item) && item.key.Some?
    ensures r.key == item.key.value
    ensures r.webhookSid == item.data.webhookSid
    ensures r.customerName == item.data.taskAttributes.from
    ensures item.dateCreated.Some? ==> r.parkingDate == item.dateCreated.value
    ensures item.dateCreated.None? ==> r.parkingDate == item.dateUpdated.value
    ensures |r.channel| >= |item.data.taskChannelUniqueName|
    ensures r.channel[..|item.data.taskChannelUniqueName|] == Capitalize(item.data.taskChannelUniqueName)
    ensures r.address.Some? ==> item.data.taskAttributes.customers.Some?
  {
    RecentInteraction(
      item.key.value,
      ChannelLabel(item.data),
      Address(item.data.taskAttributes),
      item.data.taskAttributes.from,
      ParkingDate(item),
      item.data.webhookSid)
  }

  // ------------------------------------------------------------------ listing

  /** Every item that survives the filter can be formatted. */
  predicate KeptAreRenderable(items: seq<MapItem>, deleted: string) {
    forall i :: 0 <= i < |items| && Kept(items[i], deleted) ==> Renderable(items[i])
  }

  /** The rows of the kept items, in map order. */
  function FormatAll(kept: seq<MapItem>): (r: seq<RecentInteraction>)
    requires forall i :: 0 <= i < |kept| ==> Renderable(kept[i]) && kept[i].key.Some?
    ensures |r| == |kept|
  {
    seq(|kept|, i requires 0 <= i < |kept| => Format(kept[i]))
  }

  /** Sort rank of a row: the comparator `b.parkingDate - a.parkingDate`
      orders rows by descending date, that is by ascending negated date. */
  function MostRecentFirst(r: RecentInteraction): int {
    -r.parkingDate
  }

  /** The rows before sorting: the kept items, formatted, in map order. */
  function Unsorted(items: seq<MapItem>, deleted: string): (r: seq<RecentInteraction>)
    requires KeptAreRenderable(items, deleted)
  {
    var kept := KeptItems(items, deleted);
    forall i | 0 <= i < |kept| ensures Renderable(kept[i]) && kept[i].key.Some? {
      KeptItemsMember(items, deleted, kept[i]);
    }
    FormatAll(kept)
  }

  /** One run of `getParkedInteractions` on the items the map read produced.
      With nothing to show the list is emptied and the deleted key is kept;
      otherwise the rows are sorted most recent first and the deleted key is
      reset. Either way the view ends loaded. */
  function Refresh(st: ViewState, fetched: Option<seq<MapItem>>): (r: ViewState)
    requires fetched.Some? ==> KeptAreRenderable(fetched.value, st.deletedMapItem)
    ensures r.isLoaded
    ensures fetched.None? || |fetched.value| == 0 ==>
      r.recent == [] && r.deletedMapItem == st.deletedMapItem
    ensures fetched.Some? && |fetched.value| > 0 ==>
      r.deletedMapItem == ""
      && StableSort.IsStableSort(Unsorted(fetched.value, st.deletedMapItem), r.recent, MostRecentFirst)
  {
    if fetched.None? || |fetched.value| == 0 then
      ViewState([], true, st.deletedMapItem)
    else
      var rows := StableSort.Sort(Unsorted(fetched.value, st.deletedMapItem), MostRecentFirst);
      ViewState(rows, true, "")
  }

  /** A non-empty listing has no more rows than items, its rows are a
      permutation of the formatted kept items, and they are ordered most
      recent first. */
  lemma RefreshOrdered(st: ViewState, items: seq<MapItem>)
    requires |items| > 0 && KeptAreRenderable(items, st.deletedMapItem)
    ensures var r := Refresh(st, Some(items)).recent;
      && |r| <= |items|
      && multiset(r) == multiset(Unsorted(items, st.deletedMapItem))
      && forall i, j :: 0 <= i < j < |r| ==> r[i].parkingDate >= r[j].parkingDate
  {
    var u := Unsorted(items, st.deletedMapItem);
    var r := Refresh(st, Some(items)).recent;
    StableSort.StableSortIsPermutation(u, r, MostRecentFirst);
    assert |r| == |u| by {
      assert |multiset(r)| == |multiset(u)|;
    }
    forall i, j | 0 <= i < j < |r| ensures r[i].parkingDate >= r[j].parkingDate {
      assert MostRecentFirst(r[i]) <= MostRecentFirst(r[j]);
    }
  }

  /** Every row of a non-empty listing is the row of a kept item of the map,
      so its key is never the just-deleted key. */
  lemma RefreshRowFromKept(st: ViewState, items: seq<MapItem>, row: RecentInteraction)
    requires |items| > 0 && KeptAreRenderable(items, st.deletedMapItem)
    requires row in Refresh(st, Some(items)).recent
    ensures row.key != st.deletedMapItem
    ensures exists x :: x in items && Kept(x, st.deletedMapItem) && Format(x) == row
  {
    var deleted := st.deletedMapItem;
    var u := Unsorted(items, deleted);
    var kept := KeptItems(items, deleted);
    var r := Refresh(st, Some(items)).recent;
    StableSort.StableSortIsPermutation(u, r, MostRecentFirst);
    assert row in multiset(u);
    var i :| 0 <= i < |u| && u[i] == row;
    KeptItemsMember(items, deleted, kept[i]);
    assert Format(kept[i]) == row;
  }

  /** Every kept item of the map has its row in a non-empty listing. */
  lemma RefreshShowsAllKept(st: ViewState, items: seq<MapItem>, x: MapItem)
    requires |items| > 0 && KeptAreRenderable(items, st.deletedMapItem)
    requires x in items && Kept(x, st.deletedMapItem)
    ensures Renderable(x) && Format(x) in Refresh(st, Some(items)).recent
  {
    var deleted := st.deletedMapItem;
    var u := Unsorted(items, deleted);
    var kept := KeptItems(items, deleted);
    var r := Refresh(st, Some(items)).recent;
    StableSort.StableSortIsPermutation(u, r, MostRecentFirst);
    KeptItemsMember(items, deleted, x);
    var i :| 0 <= i < |kept| && kept[i] == x;
    assert u[i] == Format(x);
    assert Format(x) in multiset(r);
  }
}
