/** `lspee config add-lsp` and `remove-lsp` on the `[[lsp]]` list (crates/lspee_cli/src/commands/config.rs). */
module ConfigEdits {
  import opened Wrappers
  import opened Config

  /** What the document holds under `lsp`. */
  datatype LspItem = Entries(entries: seq<PartialLsp>) | NotEntries

  datatype EditError = NoEntries | NotAnArray | NoSuchId

  function NewEntry(id: string, command: string, args: Option<seq<string>>): PartialLsp {
    PartialLsp(Some(id), Some(command), Some(Or(args, [])), None, None)
  }

  function Edited(e: PartialLsp, command: string, args: Option<seq<string>>): PartialLsp {
    e.(command := Some(command), args := Either(args, e.args))
  }

  /** The position of the first entry written with this id, or the length of the list. */
  function FirstWith(entries: seq<PartialLsp>, id: string): (j: nat)
    ensures j <= |entries|
    ensures j < |entries| ==> entries[j].id == Some(id)
    ensures forall l :: 0 <= l < j ==> entries[l].id != Some(id)
  {
    if entries == [] || entries[0].id == Some(id) then 0 else 1 + FirstWith(entries[1..], id)
  }

  function Added(entries: seq<PartialLsp>, id: string, command: string, args: Option<seq<string>>): seq<PartialLsp> {
    var j := FirstWith(entries, id);
    if j < |entries| then entries[j := Edited(entries[j], command, args)] else entries + [NewEntry(id, command, args)]
  }

  function Removed(entries: seq<PartialLsp>, id: string): seq<PartialLsp> {
    if entries == [] then []
    else (if entries[0].id == Some(id) then [] else [entries[0]]) + Removed(entries[1..], id)
  }

  class Document {
    var lsp: Option<LspItem>

    constructor (lsp: Option<LspItem>)
      ensures this.lsp == lsp
    {
      this.lsp := lsp;
    }

    method EnsureLspArray() returns (ok: bool)
      modifies this
      ensures lsp == if old(lsp).None? then Some(Entries([])) else old(lsp)
      ensures ok <==> lsp.Some? && lsp.value.Entries?
    {
      if lsp.None? {
        lsp := Some(Entries([]));
      }
      ok := lsp.value.Entries?;
    }

    /** The program stops with a panic when `lsp` is not an array of tables. */
    method AddLsp(id: string, command: string, args: Option<seq<string>>) returns (r: Result<bool, EditError>)
      modifies this
      ensures old(lsp) == Some(NotEntries) ==> r == Err(NotAnArray) && lsp == old(lsp)
      ensures old(lsp) != Some(NotEntries) ==>
                var entries := if old(lsp).None? then [] else old(lsp).value.entries;
                && lsp == Some(Entries(Added(entries, id, command, args)))
                && r == Ok(FirstWith(entries, id) < |entries|)
    {
      var ok := EnsureLspArray();
      if !ok {
        return Err(NotAnArray);
      }
      var entries := lsp.value.entries;
      var found := false;
      var j := 0;
      while j < |entries| && !found
        invariant 0 <= j <= |entries|
        invariant !found ==> entries == lsp.value.entries && forall l :: 0 <= l < j ==> entries[l].id != Some(id)
        invariant found ==>
                    && FirstWith(lsp.value.entries, id) < |lsp.value.entries|
                    && entries == Added(lsp.value.entries, id, command, args)
        decreases |entries| - j, !found
      {
        if entries[j].id == Some(id) {
          assert FirstWith(entries, id) == j;
          entries := entries[j := Edited(entries[j], command, args)];
          found := true;
        } else {
          j := j + 1;
        }
      }
      if !found {
        assert FirstWith(entries, id) == |entries|;
        entries := entries + [NewEntry(id, command, args)];
      }
      lsp := Some(Entries(entries));
      return Ok(found);
    }

    method RemoveLsp(id: string) returns (r: Result<(), EditError>)
      modifies this
      ensures lsp == if old(lsp).Some? && old(lsp).value.Entries?
                     then Some(Entries(Removed(old(lsp).value.entries, id))) else old(lsp)
      ensures r == if old(lsp).None? then Err(NoEntries)
                   else if old(lsp).value.NotEntries? then Err(NotAnArray)
                   else if forall e :: e in old(lsp).value.entries ==> e.id != Some(id) then Err(NoSuchId)
                   else Ok(())
    {
      if lsp.None? {
        return Err(NoEntries);
      }
      if lsp.value.NotEntries? {
        return Err(NotAnArray);
      }
      var originalLen := |lsp.value.entries|;
      RemovedLength(lsp.value.entries, id);
      var entries := RemoveAll(lsp.value.entries, id);
      lsp := Some(Entries(entries));
      if |entries| == originalLen {
        return Err(NoSuchId);
      }
      return Ok(());
    }
  }

  /** The removal loop stays put after each removal; it is an order-preserving filter. */
  method RemoveAll(all: seq<PartialLsp>, id: string) returns (entries: seq<PartialLsp>)
    ensures entries == Removed(all, id)
  {
    entries := all;
    var idx := 0;
    while idx < |entries|
      invariant 0 <= idx <= |entries|
      invariant entries[..idx] + Removed(entries[idx..], id) == Removed(all, id)
      decreases |entries| - idx
    {
      assert entries[idx..][1..] == entries[idx + 1..];
      if entries[idx].id == Some(id) {
        var shorter := entries[..idx] + entries[idx + 1..];
        assert shorter[..idx] == entries[..idx] && shorter[idx..] == entries[idx + 1..];
        entries := shorter;
      } else {
        assert entries[..idx + 1] == entries[..idx] + [entries[idx]];
        idx := idx + 1;
      }
    }
    assert entries[..idx] == entries;
  }

  lemma {:induction false} RemovedLength(entries: seq<PartialLsp>, id: string)
    ensures |Removed(entries, id)| <= |entries|
    ensures |Removed(entries, id)| == |entries| <==> forall e :: e in entries ==> e.id != Some(id)
  {
    if entries != [] {
      RemovedLength(entries[1..], id);
      assert entries == [entries[0]] + entries[1..];
    }
  }

  lemma {:induction false} RemovedConcat(a: seq<PartialLsp>, b: seq<PartialLsp>, id: string)
    ensures Removed(a + b, id) == Removed(a, id) + Removed(b, id)
  {
    if a == [] {
      assert a + b == b;
    } else {
      assert (a + b)[1..] == a[1..] + b;
      RemovedConcat(a[1..], b, id);
    }
  }

  lemma {:induction false} NothingRemoved(entries: seq<PartialLsp>, id: string)
    requires forall e :: e in entries ==> e.id != Some(id)
    ensures Removed(entries, id) == entries
  {
    if entries != [] {
      NothingRemoved(entries[1..], id);
    }
  }

  /** Removing an id that was just added restores the list, if the id was new. */
  lemma RemoveUndoesAdd(entries: seq<PartialLsp>, id: string, command: string, args: Option<seq<string>>)
    requires forall e :: e in entries ==> e.id != Some(id)
    ensures Removed(Added(entries, id, command, args), id) == entries
  {
    var added := [NewEntry(id, command, args)];
    RemovedConcat(entries, added, id);
    NothingRemoved(entries, id);
    assert added[1..] == [];
  }

  // ----- Edits and the merge

  /** The command that `id` has after merging `entries` on top of `lsps`. */
  function MergedCommand(lsps: map<string, LspConfig>, entries: seq<PartialLsp>, id: string): string {
    Entry(MergeEntries(lsps, entries), id).command
  }

  /** Entries behind the edited one for the same id can still overrule the command. */
  function Overruling(entries: seq<PartialLsp>, id: string): Option<string> {
    var j := FirstWith(entries, id);
    if j < |entries| then LastSet(entries[j + 1..], id, CommandOf) else None
  }

  /** add-lsp makes the given command the merged one exactly when no later entry overrules it. */
  lemma AddSetsCommand(
    lsps: map<string, LspConfig>, entries: seq<PartialLsp>, id: string, command: string, args: Option<seq<string>>
  )
    ensures MergedCommand(lsps, Added(entries, id, command, args), id) == command <==>
            Overruling(entries, id).None? || Overruling(entries, id) == Some(command)
    ensures id in MergeEntries(lsps, Added(entries, id, command, args))
  {
    var after, j := Added(entries, id, command, args), FirstWith(entries, id);
    LastDefinitionWins(lsps, after, id);
    if j < |entries| {
      var edited := after[j];
      assert after == entries[..j] + ([edited] + entries[j + 1..]);
      LastSetConcat(entries[..j], [edited] + entries[j + 1..], id, CommandOf);
      LastSetConcat([edited], entries[j + 1..], id, CommandOf);
      assert edited in after && IdOf(edited) == id;
    } else {
      var entry := NewEntry(id, command, args);
      assert after[|after| - 1] == entry && entry in after && IdOf(entry) == id;
    }
  }

  function MergedArgs(lsps: map<string, LspConfig>, entries: seq<PartialLsp>, id: string): seq<string> {
    Entry(MergeEntries(lsps, entries), id).args
  }

  function OverrulingArgs(entries: seq<PartialLsp>, id: string): Option<seq<string>> {
    var j := FirstWith(entries, id);
    if j < |entries| then LastSet(entries[j + 1..], id, ArgsOf) else None
  }

  /** The last word on the arguments in a list of three parts. */
  lemma LastArgsAround(a: seq<PartialLsp>, e: PartialLsp, b: seq<PartialLsp>, id: string)
    requires IdOf(e) == id
    ensures LastSet(a + [e] + b, id, ArgsOf) ==
            Either(LastSet(b, id, ArgsOf), Either(e.args, LastSet(a, id, ArgsOf)))
  {
    LastSetConcat(a + [e], b, id, ArgsOf);
    LastSetConcat(a, [e], id, ArgsOf);
    assert [e][..0] == [];
  }

  lemma EditedArgs(entries: seq<PartialLsp>, id: string, command: string, args: Option<seq<string>>)
    requires FirstWith(entries, id) < |entries|
    ensures var after := LastSet(Added(entries, id, command, args), id, ArgsOf);
            if args.Some? then after == Either(OverrulingArgs(entries, id), args)
            else after == LastSet(entries, id, ArgsOf)
  {
    var j := FirstWith(entries, id);
    var edited := Edited(entries[j], command, args);
    LastArgsAround(entries[..j], entries[j], entries[j + 1..], id);
    LastArgsAround(entries[..j], edited, entries[j + 1..], id);
    assert entries == entries[..j] + [entries[j]] + entries[j + 1..];
    assert Added(entries, id, command, args) == entries[..j] + [edited] + entries[j + 1..];
  }

  lemma NewArgs(entries: seq<PartialLsp>, id: string, command: string, args: Option<seq<string>>)
    requires FirstWith(entries, id) == |entries|
    ensures LastSet(Added(entries, id, command, args), id, ArgsOf) == Some(Or(args, []))
  {
    var entry := NewEntry(id, command, args);
    LastArgsAround(entries, entry, [], id);
    assert Added(entries, id, command, args) == entries + [entry] + [];
  }

  /**
   The same for the arguments: given ones become the merged ones exactly when no later entry overrules them; with
   none given an entry that is there keeps its merged arguments, and a new one has none.
   */
  lemma AddSetsArgs(
    lsps: map<string, LspConfig>, entries: seq<PartialLsp>, id: string, command: string, args: Option<seq<string>>
  )
    ensures var after := MergedArgs(lsps, Added(entries, id, command, args), id);
            && (args.Some? ==>
                  (after == args.value <==>
                     OverrulingArgs(entries, id).None? || OverrulingArgs(entries, id) == args))
            && (args.None? ==>
                  after == if FirstWith(entries, id) < |entries| then MergedArgs(lsps, entries, id) else [])
  {
    LastDefinitionWins(lsps, Added(entries, id, command, args), id);
    LastDefinitionWins(lsps, entries, id);
    if FirstWith(entries, id) < |entries| {
      EditedArgs(entries, id, command, args);
    } else {
      NewArgs(entries, id, command, args);
    }
  }

  ghost predicate DistinctIds(entries: seq<PartialLsp>) {
    forall j, l :: 0 <= j < l < |entries| ==> IdOf(entries[j]) != IdOf(entries[l])
  }

  /** With no two entries under one id, add-lsp always sets the merged command. */
  lemma AddSetsCommandOnDistinctIds(
    lsps: map<string, LspConfig>, entries: seq<PartialLsp>, id: string, command: string, args: Option<seq<string>>
  )
    requires DistinctIds(entries)
    ensures MergedCommand(lsps, Added(entries, id, command, args), id) == command
  {
    AddSetsCommand(lsps, entries, id, command, args);
    var j := FirstWith(entries, id);
    if j < |entries| {
      forall e | e in entries[j + 1..] ensures IdOf(e) != id {
        var l :| 0 <= l < |entries[j + 1..]| && entries[j + 1..][l] == e;
        assert IdOf(entries[j]) != IdOf(entries[j + 1 + l]);
      }
      LastSetIsLast(entries[j + 1..], id, CommandOf);
    }
  }

  lemma {:induction false} OthersUntouched(
    lsps: map<string, LspConfig>, a: seq<PartialLsp>, x: seq<PartialLsp>, y: seq<PartialLsp>, b: seq<PartialLsp>,
    other: string
  )
    requires forall e :: e in x + y ==> IdOf(e) != other
    ensures Entry(MergeEntries(lsps, a + x + b), other) == Entry(MergeEntries(lsps, a + y + b), other)
    ensures other in MergeEntries(lsps, a + x + b) <==> other in MergeEntries(lsps, a + y + b)
  {
    if b == [] {
      SkipOthers(lsps, a, x, other);
      SkipOthers(lsps, a, y, other);
      assert a + x + b == a + x && a + y + b == a + y;
    } else {
      var front, last := b[..|b| - 1], b[|b| - 1];
      OthersUntouched(lsps, a, x, y, front, other);
      assert a + x + b == (a + x + front) + [last] && a + y + b == (a + y + front) + [last];
      MergeLast(lsps, a + x + front, last);
      MergeLast(lsps, a + y + front, last);
      MergeEntryEffect(MergeEntries(lsps, a + x + front), last, other);
      MergeEntryEffect(MergeEntries(lsps, a + y + front), last, other);
    }
  }

  lemma MergeLast(lsps: map<string, LspConfig>, entries: seq<PartialLsp>, last: PartialLsp)
    ensures MergeEntries(lsps, entries + [last]) == MergeEntry(MergeEntries(lsps, entries), last)
  {
    assert (entries + [last])[..|entries|] == entries;
  }

  lemma {:induction false} SkipOthers(
    lsps: map<string, LspConfig>, a: seq<PartialLsp>, x: seq<PartialLsp>, other: string
  )
    requires forall e :: e in x ==> IdOf(e) != other
    ensures Entry(MergeEntries(lsps, a + x), other) == Entry(MergeEntries(lsps, a), other)
    ensures other in MergeEntries(lsps, a + x) <==> other in MergeEntries(lsps, a)
  {
    if x == [] {
      assert a + x == a;
    } else {
      var front, last := x[..|x| - 1], x[|x| - 1];
      SkipOthers(lsps, a, front, other);
      assert a + x == (a + front) + [last];
      MergeLast(lsps, a + front, last);
      MergeEntryEffect(MergeEntries(lsps, a + front), last, other);
    }
  }

  /** Where add-lsp changes the list: one entry for `id` is replaced or added. */
  lemma AddedAround(entries: seq<PartialLsp>, id: string, command: string, args: Option<seq<string>>)
    returns (a: seq<PartialLsp>, x: seq<PartialLsp>, y: seq<PartialLsp>, b: seq<PartialLsp>)
    ensures Added(entries, id, command, args) == a + x + b && entries == a + y + b
    ensures forall e :: e in x + y ==> IdOf(e) == id
  {
    var j := FirstWith(entries, id);
    if j < |entries| {
      a, b := entries[..j], entries[j + 1..];
      x, y := [Edited(entries[j], command, args)], [entries[j]];
    } else {
      a, x, y, b := entries, [NewEntry(id, command, args)], [], [];
    }
  }

  /** add-lsp leaves the merged entry of every other id alone, on any list. */
  lemma AddLeavesOthersAlone(
    lsps: map<string, LspConfig>, entries: seq<PartialLsp>, id: string, command: string, args: Option<seq<string>>,
    other: string
  )
    requires other != id
    ensures var after := Added(entries, id, command, args);
            && Entry(MergeEntries(lsps, after), other) == Entry(MergeEntries(lsps, entries), other)
            && (other in MergeEntries(lsps, after) <==> other in MergeEntries(lsps, entries))
  {
    var a, x, y, b := AddedAround(entries, id, command, args);
    OthersUntouched(lsps, a, x, y, b, other);
  }
}
