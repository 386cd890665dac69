/**
 * The audit log tab and the pack's own `create_audit_entry`.
 *
 * Audit entries are AuditLogEntry nodes whose property bag records one change
 * to another node. The tab lists the entries about one node, newest first,
 * at most 100 of them. Creating an entry fills in defaults for every optional
 * field and appends a node to the store; a failed save gives None instead of
 * an exception.
 */
module AuditLogViews {
  import opened Values
  import opened StableSort

  type NodeId = string

  /** The AuditLogEntry nodes in the order `nodes.all()` lists them: element id and property bag. */
  type Listing = seq<(NodeId, PropertyBag)>

  /** One line of the tab. */
  datatype AuditRow = AuditRow(
    id: NodeId,
    timestamp: Value,
    action: Value,
    nodeLabel: Value,
    nodeName: Value,
    user: Value,
    changes: Value,
    relationshipType: Value,
    targetLabel: Value,
    targetId: Value)

  /** The tab shows at most this many entries. */
  const TabLimit: nat := 100

  // ---------------------------------------------------------------------
  // The tab

  /** The row for one entry: each field read with its default ('Unknown' for the node name, 'System' for the user, '' otherwise). */
  function RowOf(id: NodeId, props: PropertyBag): (r: AuditRow)
    ensures r.id == id
    ensures "timestamp" in props ==> r.timestamp == props["timestamp"]
    ensures "node_name" in props ==> r.nodeName == props["node_name"]
    ensures "node_name" !in props ==> r.nodeName == Str("Unknown")
    ensures "user" in props ==> r.user == props["user"]
    ensures "user" !in props ==> r.user == Str("System")
  {
    AuditRow(
      id,
      Get(props, "timestamp", Str("")),
      Get(props, "action", Str("")),
      Get(props, "node_label", Str("")),
      Get(props, "node_name", Str("Unknown")),
      Get(props, "user", Str("System")),
      Get(props, "changes", Str("")),
      Get(props, "relationship_type", Str("")),
      Get(props, "target_label", Str("")),
      Get(props, "target_id", Str("")))
  }

  /** `props.get('node_id') == element_id`: only a text node id can match. */
  predicate Concerns(props: PropertyBag, elementId: NodeId) {
    Get(props, "node_id", Null) == Str(elementId)
  }

  /** The rows of the entries about `elementId`, in listing order. */
  function Matching(listing: Listing, elementId: NodeId): (r: seq<AuditRow>)
    ensures forall row :: row in r <==>
              exists i :: 0 <= i < |listing| && Concerns(listing[i].1, elementId)
                          && row == RowOf(listing[i].0, listing[i].1)
  {
    if listing == [] then []
    else
      var init, last := listing[..|listing| - 1], listing[|listing| - 1];
      assert forall i :: 0 <= i < |init| ==> init[i] == listing[i];
      Matching(init, elementId) + (if Concerns(last.1, elementId) then [RowOf(last.0, last.1)] else [])
  }

  /** The rows of a concatenated listing are those of each part, in turn: listing order is kept. */
  lemma {:induction false} MatchingAppend(a: Listing, b: Listing, elementId: NodeId)
    ensures Matching(a + b, elementId) == Matching(a, elementId) + Matching(b, elementId)
  {
    if b == [] {
      assert a + b == a;
    } else {
      var init, last := b[..|b| - 1], b[|b| - 1];
      MatchingAppend(a, init, elementId);
      var ab := a + b;
      assert ab[..|ab| - 1] == a + init;
      assert ab[|ab| - 1] == last;
      var tail := if Concerns(last.1, elementId) then [RowOf(last.0, last.1)] else [];
      assert Matching(ab, elementId) == Matching(a + init, elementId) + tail;
      assert Matching(b, elementId) == Matching(init, elementId) + tail;
    }
  }

  /**
   * How Python orders a timestamp: text by code point, integers and booleans
   * by value; any other value cannot be ordered against anything.
   */
  function TimestampKey(v: Value): Option<Key> {
    match v
    case Str(s) => Some(Text(s))
    case Int(i) => Some(Num(i))
    case Bool(b) => Some(Num(if b then 1 else 0))
    case _ => None
  }

  /** The sort key of a row (only consulted when every timestamp has one). */
  function RowKey(row: AuditRow): Key {
    match TimestampKey(row.timestamp)
    case Some(k) => k
    case None => Num(0)
  }

  /**
   * The sort raises exactly when two or more rows are sorted and some
   * timestamp cannot be ordered, or text and numbers are mixed: a comparison
   * sort compares every element with its neighbour in the result.
   */
  predicate Orderable(rows: seq<AuditRow>)
    ensures (forall i :: 0 <= i < |rows| ==> rows[i].timestamp.Str?) ==> Orderable(rows)
    ensures |rows| >= 2 && (exists i :: 0 <= i < |rows| && rows[i].timestamp == Null) ==> !Orderable(rows)
    ensures (exists i, j :: 0 <= i < |rows| && 0 <= j < |rows| && rows[i].timestamp.Str? && rows[j].timestamp.Int?)
              ==> !Orderable(rows)
  {
    |rows| < 2
    || ((forall i :: 0 <= i < |rows| ==> TimestampKey(rows[i].timestamp).Some?)
        && ((forall i :: 0 <= i < |rows| ==> RowKey(rows[i]).Num?)
            || (forall i :: 0 <= i < |rows| ==> RowKey(rows[i]).Text?)))
  }

  /** `s[:n]`. */
  function Take<T>(s: seq<T>, n: nat): (r: seq<T>)
    ensures |r| <= n && |r| <= |s| && r == s[..|r|]
    ensures |s| <= n ==> r == s
  {
    if |s| <= n then s else s[..n]
  }

  datatype TabError = SortFailed

  /** The tab's context: the entries shown and the error, if any. */
  datatype AuditTab = AuditTab(entries: seq<AuditRow>, error: Option<TabError>)

  /** What the tab shows for node `elementId`. */
  function AuditTabOf(listing: Listing, elementId: NodeId): (r: AuditTab)
    ensures |r.entries| <= TabLimit
    ensures r.error.Some? <==> !Orderable(Matching(listing, elementId))
    ensures r.error.Some? ==> r.entries == []
  {
    var rows := Matching(listing, elementId);
    if !Orderable(rows) then AuditTab([], Some(SortFailed))
    else AuditTab(Take(Sort(rows, RowKey, Descending), TabLimit), None)
  }

  /** `audit_log_tab`. */
  method AuditLogTab(listing: Listing, elementId: NodeId) returns (tab: AuditTab)
    ensures tab == AuditTabOf(listing, elementId)
  {
    var rows: seq<AuditRow> := [];
    for i := 0 to |listing|
      invariant rows == Matching(listing[..i], elementId)
    {
      assert listing[..i + 1][..i] == listing[..i];
      var (id, props) := listing[i];
      if Concerns(props, elementId) {
        rows := rows + [RowOf(id, props)];
      }
    }
    assert listing[..|listing|] == listing;
    if !Orderable(rows) {
      return AuditTab([], Some(SortFailed));
    }
    rows := Sort(rows, RowKey, Descending);
    tab := AuditTab(Take(rows, TabLimit), None);
  }

  /** Every entry shown is the row of a listed entry about the node. */
  lemma TabShowsOnlyMatching(listing: Listing, elementId: NodeId)
    ensures forall row :: row in AuditTabOf(listing, elementId).entries ==>
              exists i :: 0 <= i < |listing| && Concerns(listing[i].1, elementId)
                          && row == RowOf(listing[i].0, listing[i].1)
  {
    var rows := Matching(listing, elementId);
    if Orderable(rows) {
      var sorted := Sort(rows, RowKey, Descending);
      SortPermutation(rows, RowKey, Descending);
      forall row | row in AuditTabOf(listing, elementId).entries
        ensures row in rows
      {
        assert row in sorted;
        assert row in multiset(sorted);
      }
    }
  }

  /** When at most 100 entries concern the node, each of them is shown, as often as it is listed. */
  lemma TabShowsAllWhenFew(listing: Listing, elementId: NodeId)
    requires Orderable(Matching(listing, elementId)) && |Matching(listing, elementId)| <= TabLimit
    ensures multiset(AuditTabOf(listing, elementId).entries) == multiset(Matching(listing, elementId))
  {
    SortPermutation(Matching(listing, elementId), RowKey, Descending);
  }

  /**
   * The entries are shown newest first, entries with equal timestamps in
   * listing order, at most 100 of them, and none is shown when the sort fails.
   */
  lemma TabNewestFirst(listing: Listing, elementId: NodeId, k: Key)
    ensures var tab := AuditTabOf(listing, elementId);
            |tab.entries| <= TabLimit
            && Sorted(tab.entries, RowKey, Descending)
            && (tab.error.Some? <==> !Orderable(Matching(listing, elementId)))
            && (tab.error.Some? ==> tab.entries == [])
            && (|Matching(listing, elementId)| <= TabLimit && tab.error.None? ==>
                  WithKey(tab.entries, RowKey, k) == WithKey(Matching(listing, elementId), RowKey, k))
  {
    var rows := Matching(listing, elementId);
    SortSorted(rows, RowKey, Descending);
    SortStable(rows, RowKey, Descending, k);
  }

  /** The cap keeps the newest entries: no entry left out is newer than an entry shown. */
  lemma TabKeepsNewest(listing: Listing, elementId: NodeId)
    requires Orderable(Matching(listing, elementId))
    ensures var sorted := Sort(Matching(listing, elementId), RowKey, Descending);
            var shown := AuditTabOf(listing, elementId).entries;
            shown == sorted[..|shown|]
            && forall i, j :: 0 <= i < |shown| <= j < |sorted| ==>
                 !Precedes(RowKey(sorted[j]), RowKey(shown[i]), Descending)
  {
    SortSorted(Matching(listing, elementId), RowKey, Descending);
  }

  // ---------------------------------------------------------------------
  // Creating an entry

  /**
   * The arguments of `create_audit_entry`; Null stands for an argument left at
   * its default of None.
   */
  datatype AuditArgs = AuditArgs(
    action: Value,
    nodeLabel: Value,
    nodeId: Value,
    nodeName: Value,
    user: Value,
    changes: Value,
    relationshipType: Value,
    targetLabel: Value,
    targetId: Value)

  /** The entry's property bag: the arguments, with '' or 'System' for falsy optional ones. */
  function EntryProperties(args: AuditArgs, timestamp: string): (r: PropertyBag)
    ensures "timestamp" in r && r["timestamp"] == Str(timestamp)
    ensures "node_id" in r && r["node_id"] == args.nodeId
    ensures "user" in r && Truthy(r["user"])
    ensures "node_name" in r && (Truthy(r["node_name"]) || r["node_name"] == Str(""))
    ensures "changes" in r && (Truthy(r["changes"]) || r["changes"] == Str(""))
    ensures "target_id" in r && (Truthy(r["target_id"]) || r["target_id"] == Str(""))
  {
    map[
      "timestamp" := Str(timestamp),
      "action" := args.action,
      "node_label" := args.nodeLabel,
      "node_id" := args.nodeId,
      "node_name" := Or(args.nodeName, Str("")),
      "user" := Or(args.user, Str("System")),
      "changes" := Or(args.changes, Str("")),
      "relationship_type" := Or(args.relationshipType, Str("")),
      "target_label" := Or(args.targetLabel, Str("")),
      "target_id" := Or(args.targetId, Str(""))]
  }

  /** The AuditLogEntry nodes of the store, in listing order. */
  class AuditStore {
    var entries: Listing

    constructor (entries: Listing)
      ensures this.entries == entries
    {
      this.entries := entries;
    }

    /** `AuditLogEntry(custom_properties=props).save()`: the new node is listed last. */
    method Save(id: NodeId, props: PropertyBag)
      modifies this
      ensures entries == old(entries) + [(id, props)]
    {
      entries := entries + [(id, props)];
    }
  }

  /**
   * `create_audit_entry` of the views module. `timestamp` is the current UTC
   * time in ISO format, `saved` whether the store accepts the new node, and
   * `newId` the element id it gives it.
   */
  method CreateAuditEntry(store: AuditStore, args: AuditArgs, timestamp: string, saved: bool, newId: NodeId)
    returns (r: Option<NodeId>)
    modifies store
    ensures saved ==> r == Some(newId) && store.entries == old(store.entries) + [(newId, EntryProperties(args, timestamp))]
    ensures !saved ==> r == None && store.entries == old(store.entries)
  {
    var props := EntryProperties(args, timestamp);
    if !saved {
      return None;
    }
    store.Save(newId, props);
    r := Some(newId);
  }

  /**
   * What creation writes the tab reads back: the row of a created entry holds
   * the arguments with their creation defaults (so the tab's own 'Unknown'
   * default never applies), it concerns exactly the node its `node_id` names,
   * and it is shown while the node has at most 100 entries.
   */
  lemma CreatedEntryShown(listing: Listing, args: AuditArgs, timestamp: string, id: NodeId, elementId: NodeId)
    ensures RowOf(id, EntryProperties(args, timestamp))
         == AuditRow(id, Str(timestamp), args.action, args.nodeLabel, Or(args.nodeName, Str("")),
                     Or(args.user, Str("System")), Or(args.changes, Str("")), Or(args.relationshipType, Str("")),
                     Or(args.targetLabel, Str("")), Or(args.targetId, Str("")))
    ensures Concerns(EntryProperties(args, timestamp), elementId) <==> args.nodeId == Str(elementId)
    ensures var after := listing + [(id, EntryProperties(args, timestamp))];
            args.nodeId == Str(elementId) && Orderable(Matching(after, elementId))
              && |Matching(after, elementId)| <= TabLimit
            ==> RowOf(id, EntryProperties(args, timestamp)) in AuditTabOf(after, elementId).entries
  {
    var props := EntryProperties(args, timestamp);
    var after := listing + [(id, props)];
    if args.nodeId == Str(elementId) && Orderable(Matching(after, elementId)) && |Matching(after, elementId)| <= TabLimit {
      assert after[..|after| - 1] == listing;
      var rows := Matching(after, elementId);
      assert RowOf(id, props) in rows;
      TabShowsAllWhenFew(after, elementId);
      assert RowOf(id, props) in multiset(AuditTabOf(after, elementId).entries);
    }
  }

  /** A created entry always shows a user: the given one, or 'System'. */
  lemma CreatedEntryHasUser(args: AuditArgs, timestamp: string)
    ensures Truthy(EntryProperties(args, timestamp)["user"])
    ensures EntryProperties(args, timestamp)["user"] == if Truthy(args.user) then args.user else Str("System")
  {
  }
}
