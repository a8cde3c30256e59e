/**
 When pending allocations move into the ordered table.  The pair of tables follows a run of its
 own next to the view: an allocation is appended to the pending list, a lookup flushes a list
 that is too long to scan, a snapshot always flushes, and a traced reset starts both over.
 */
module ArenaSettling {
  import opened ArenaModel
  import opened ArenaIndex

  datatype Tables = Tables(table: Table, pending: seq<Pending>)

  /** Everything recorded, settled or not. */
  function Records(h: Tables, g: nat): Table { Fold(h.table, h.pending, g) }

  function Flushed(h: Tables, g: nat): Tables { Tables(Records(h, g), []) }

  /** A lookup scans a short pending list in place and flushes a long one first. */
  function Consulted(h: Tables, g: nat): Tables {
    if |h.pending| > PENDING_SCAN_LIMIT then Flushed(h, g) else h
  }

  function TablesStep(h: Tables, v: View, op: BaseOp): Tables {
    match op
    case Alloc(size, answer) =>
      if answer.Some? && v.tracing
      then h.(pending := h.pending + [Pending(answer.value, Max(size, 1), NextSerial(v.nextId))]) else h
    case LookUp(_) => Consulted(h, |v.retained|)
    case TakeSnapshot => Flushed(h, |v.retained|)
    case ReplaceEdge(_, owner, _, _) => if owner == 0 || !v.tracing then h else Consulted(h, |v.retained|)
    case _ => h
  }

  function ScriptTables(h: Tables, v: View, ops: seq<HookOp>): Tables {
    if ops == [] then h
    else
      var front, last := ops[..|ops| - 1], ops[|ops| - 1];
      var before := ScriptTables(h, v, front);
      if last.Perform? then TablesStep(before, RunScript(v, front), last.op) else before
  }

  function CallsTables(h: Tables, v: View, calls: seq<Call>, scripts: Scripts): Tables {
    if calls == [] then h
    else
      var front, last := calls[..|calls| - 1], calls[|calls| - 1];
      ScriptTables(CallsTables(h, v, front, scripts), RunCalls(v, front, scripts), scripts(last))
  }

  /** A traced reset leaves the survivors settled and nothing pending. */
  ghost function CoreTables(h: Tables, v: View, read: Memory): Tables {
    if v.tracing then Tables(ResetCore(v, read).index, []) else h
  }

  ghost function ResetTables(h: Tables, v: View, read: Memory, scripts: Scripts): Tables {
    if v.active then h else
    var w := ResetCore(v, read).(active := true);
    var m := AfterMetadata(v, read, scripts);
    CallsTables(CallsTables(CoreTables(h, v, read), w, MetadataList(w.metadataHooks), scripts),
                m, ReleaseList(m.hooks), scripts)
  }
}
