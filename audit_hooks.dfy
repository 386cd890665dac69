/**
 * The audit hook the pack registers with the core: its own
 * `create_audit_entry`, which writes nothing unless AuditLogEntry is a known
 * node type and which may also keep snapshots of the node's properties before
 * and after the change.
 */
module AuditLogHooks {
  import opened Values
  import opened AuditLogViews

  /** The node type audit entries are stored as. */
  const AuditLabel: string := "AuditLogEntry"

  /**
   * The entry's property bag: the same fields and defaults as the views
   * module's entries, plus `old_props` and `new_props` when they are not None
   * (Null). An empty snapshot is still kept.
   */
  function HookProperties(args: AuditArgs, timestamp: string, oldProps: Value, newProps: Value): (r: PropertyBag)
    ensures "old_props" in r <==> oldProps != Null
    ensures "new_props" in r <==> newProps != Null
    ensures EntryProperties(args, timestamp).Keys <= r.Keys
  {
    var base := EntryProperties(args, timestamp);
    var withOld := if oldProps != Null then base["old_props" := oldProps] else base;
    if newProps != Null then withOld["new_props" := newProps] else withOld
  }

  /**
   * The hook's bag agrees with the views module's on every field they share;
   * a snapshot key is present exactly when that snapshot was given, and holds
   * it unchanged.
   */
  lemma HookPropertiesSnapshots(args: AuditArgs, timestamp: string, oldProps: Value, newProps: Value)
    ensures var p := HookProperties(args, timestamp, oldProps, newProps);
            var base := EntryProperties(args, timestamp);
            (forall k :: k in base ==> k in p && p[k] == base[k])
            && ("old_props" in p <==> oldProps != Null)
            && ("new_props" in p <==> newProps != Null)
            && (oldProps != Null ==> p["old_props"] == oldProps)
            && (newProps != Null ==> p["new_props"] == newProps)
            && p.Keys == base.Keys + (if oldProps != Null then {"old_props"} else {})
                                   + (if newProps != Null then {"new_props"} else {})
  {
    var base := EntryProperties(args, timestamp);
    var withOld := if oldProps != Null then base["old_props" := oldProps] else base;
    assert "old_props" !in base && "new_props" !in withOld;
    assert HookProperties(args, timestamp, oldProps, newProps)
        == if newProps != Null then withOld["new_props" := newProps] else withOld;
  }

  /** Without snapshots, the hook writes exactly the entry the views module writes. */
  lemma HookWithoutSnapshots(args: AuditArgs, timestamp: string)
    ensures HookProperties(args, timestamp, Null, Null) == EntryProperties(args, timestamp)
  {
  }

  /** `action`, `node_label` and `node_id` are kept exactly as given, whatever they are. */
  lemma HookKeepsIdentity(args: AuditArgs, timestamp: string, oldProps: Value, newProps: Value)
    ensures var p := HookProperties(args, timestamp, oldProps, newProps);
            p["action"] == args.action && p["node_label"] == args.nodeLabel && p["node_id"] == args.nodeId
            && p["timestamp"] == Str(timestamp)
  {
    HookPropertiesSnapshots(args, timestamp, oldProps, newProps);
  }

  /**
   * `create_audit_entry` of the hooks module. `knownLabels` is the type
   * registry's set of known labels, `timestamp` the current UTC time in ISO
   * format, `saved` whether the store accepts the new node and `newId` the
   * element id it gives it. Without the AuditLogEntry type, or when the save
   * fails, nothing is written and the result is None.
   */
  method HookCreateAuditEntry(store: AuditStore, knownLabels: set<string>, args: AuditArgs, timestamp: string,
                              oldProps: Value, newProps: Value, saved: bool, newId: NodeId)
    returns (r: Option<NodeId>)
    modifies store
    ensures AuditLabel !in knownLabels ==> r == None && store.entries == old(store.entries)
    ensures AuditLabel in knownLabels && !saved ==> r == None && store.entries == old(store.entries)
    ensures AuditLabel in knownLabels && saved ==>
              r == Some(newId)
              && store.entries == old(store.entries) + [(newId, HookProperties(args, timestamp, oldProps, newProps))]
  {
    if AuditLabel !in knownLabels {
      return None;
    }
    var properties := EntryProperties(args, timestamp);
    if oldProps != Null {
      properties := properties["old_props" := oldProps];
    }
    if newProps != Null {
      properties := properties["new_props" := newProps];
    }
    if !saved {
      return None;
    }
    store.Save(newId, properties);
    r := Some(newId);
  }

  /** The audit hooks the core calls on every change. */
  datatype AuditHook = CreateAuditEntryHook

  /** The core's list of registered audit hooks. */
  class HookRegistry {
    var hooks: seq<AuditHook>

    constructor ()
      ensures hooks == []
    {
      hooks := [];
    }

    /** `register_audit_hook(hook)`. */
    method Register(hook: AuditHook)
      modifies this
      ensures hooks == old(hooks) + [hook]
    {
      hooks := hooks + [hook];
    }
  }

  /** `register_hooks`: registers exactly this module's `create_audit_entry`, once. */
  method RegisterHooks(registry: HookRegistry)
    modifies registry
    ensures registry.hooks == old(registry.hooks) + [CreateAuditEntryHook]
  {
    registry.Register(CreateAuditEntryHook);
  }

  /** The hook a registered entry stands for, run with the given arguments. */
  method RunHook(hook: AuditHook, store: AuditStore, knownLabels: set<string>, args: AuditArgs, timestamp: string,
                 oldProps: Value, newProps: Value, saved: bool, newId: NodeId)
    returns (r: Option<NodeId>)
    modifies store
    ensures AuditLabel in knownLabels && saved ==>
              r == Some(newId)
              && store.entries == old(store.entries) + [(newId, HookProperties(args, timestamp, oldProps, newProps))]
    ensures !(AuditLabel in knownLabels && saved) ==> r == None && store.entries == old(store.entries)
  {
    match hook
    case CreateAuditEntryHook =>
      r := HookCreateAuditEntry(store, knownLabels, args, timestamp, oldProps, newProps, saved, newId);
  }
}
