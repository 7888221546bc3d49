/**
 * The dashboard's local bookkeeping: after a save it merges the saved
 * record into the list it shows, after a delete it filters the record
 * out, and before a save it refuses incomplete drafts.
 */
module Dashboard {
  import opened Common
  import opened Strings
  import opened Entities
  import CommandStore

  /** Some item has the given id. */
  predicate HasId<T>(items: seq<T>, id: string, idOf: T -> string)
  {
    exists k :: 0 <= k < |items| && idOf(items[k]) == id
  }

  /**
   * `updateCollection`: when an item with the saved record's id is shown,
   * every such item is replaced in place; otherwise the record goes in
   * front.
   */
  function UpdateCollection<T>(items: seq<T>, updated: T, idOf: T -> string): (r: seq<T>)
    ensures HasId(items, idOf(updated), idOf) ==>
      && |r| == |items|
      && (forall k :: 0 <= k < |items| && idOf(items[k]) == idOf(updated) ==> r[k] == updated)
      && (forall k :: 0 <= k < |items| && idOf(items[k]) != idOf(updated) ==> r[k] == items[k])
    ensures !HasId(items, idOf(updated), idOf) ==> |r| == |items| + 1 && r[0] == updated && r[1..] == items
  {
    if HasId(items, idOf(updated), idOf) then
      seq(|items|, k requires 0 <= k < |items| => if idOf(items[k]) == idOf(updated) then updated else items[k])
    else [updated] + items
  }

  /** The saved record is always shown afterwards. */
  lemma UpdatedIsShown<T>(items: seq<T>, updated: T, idOf: T -> string)
    ensures updated in UpdateCollection(items, updated, idOf)
  {
    var r := UpdateCollection(items, updated, idOf);
    if HasId(items, idOf(updated), idOf) {
      var k :| 0 <= k < |items| && idOf(items[k]) == idOf(updated);
      assert r[k] == updated;
    } else {
      assert r[0] == updated;
    }
  }

  /** Merging the same record twice is the same as merging it once. */
  lemma UpdateIdempotent<T>(items: seq<T>, updated: T, idOf: T -> string)
    ensures var once := UpdateCollection(items, updated, idOf);
      UpdateCollection(once, updated, idOf) == once
  {
    var once := UpdateCollection(items, updated, idOf);
    UpdatedIsShown(items, updated, idOf);
    var k :| 0 <= k < |once| && once[k] == updated;
    assert HasId(once, idOf(updated), idOf);
    var twice := UpdateCollection(once, updated, idOf);
    forall j | 0 <= j < |once| ensures twice[j] == once[j] {
      if idOf(once[j]) == idOf(updated) {
        if HasId(items, idOf(updated), idOf) {
          assert once[j] == updated;
        } else if j > 0 {
          assert once[j] == items[j - 1];
          assert HasId(items, idOf(updated), idOf);
        }
      }
    }
  }

  predicate DistinctIds<T>(items: seq<T>, idOf: T -> string)
  {
    forall i, j :: 0 <= i < j < |items| ==> idOf(items[i]) != idOf(items[j])
  }

  /** Merging keeps the ids of a list distinct. */
  lemma UpdateKeepsIdsDistinct<T>(items: seq<T>, updated: T, idOf: T -> string)
    requires DistinctIds(items, idOf)
    ensures DistinctIds(UpdateCollection(items, updated, idOf), idOf)
  {
    var r := UpdateCollection(items, updated, idOf);
    if !HasId(items, idOf(updated), idOf) {
      forall i, j | 0 <= i < j < |r| ensures idOf(r[i]) != idOf(r[j]) {
        assert r[j] == items[j - 1];
        if i > 0 { assert r[i] == items[i - 1]; }
      }
    }
  }

  /** The delete handlers' filter: every item with the id goes, the rest keep their order. */
  function DeleteById<T>(items: seq<T>, id: string, idOf: T -> string): (r: seq<T>)
    ensures |r| <= |items|
  {
    if items == [] then []
    else (if idOf(items[0]) != id then [items[0]] else []) + DeleteById(items[1..], id, idOf)
  }

  /** An item remains after a delete exactly when it was there and has another id. */
  lemma {:induction false} DeleteByIdMembers<T>(items: seq<T>, id: string, idOf: T -> string, x: T)
    ensures x in DeleteById(items, id, idOf) <==> x in items && idOf(x) != id
    decreases |items|
  {
    if items != [] {
      DeleteByIdMembers(items[1..], id, idOf, x);
      assert items == [items[0]] + items[1..];
    }
  }

  /** Filtering distributes over concatenation, which is what keeping the order means. */
  lemma {:induction false} DeleteAppend<T>(a: seq<T>, b: seq<T>, id: string, idOf: T -> string)
    ensures DeleteById(a + b, id, idOf) == DeleteById(a, id, idOf) + DeleteById(b, id, idOf)
    decreases |a|
  {
    if a != [] {
      var head := if idOf(a[0]) != id then [a[0]] else [];
      assert (a + b)[0] == a[0] && (a + b)[1..] == a[1..] + b;
      assert DeleteById(a + b, id, idOf) == head + DeleteById(a[1..] + b, id, idOf);
      DeleteAppend(a[1..], b, id, idOf);
      assert DeleteById(a, id, idOf) == head + DeleteById(a[1..], id, idOf);
    } else {
      assert a + b == b;
    }
  }

  /** Deleting an id nobody has changes nothing. */
  lemma {:induction false} DeleteAbsent<T>(items: seq<T>, id: string, idOf: T -> string)
    requires !HasId(items, id, idOf)
    ensures DeleteById(items, id, idOf) == items
    decreases |items|
  {
    if items != [] {
      DeleteAbsent(items[1..], id, idOf);
      assert idOf(items[0]) != id;
    }
  }

  function CommandId(c: Command): string
  {
    c.id
  }

  /**
   * With distinct ids the dashboard's filter agrees with the store's
   * removal: the list it shows is the list the store now holds.
   */
  lemma {:induction false} DeleteAgreesWithStore(cmds: seq<Command>, id: string)
    requires CommandStore.DistinctCommandIds(cmds)
    ensures var found := FindFirst(cmds, CommandStore.CommandIdIs(id));
      DeleteById(cmds, id, CommandId) == if found.None? then cmds else CommandStore.RemoveAt(cmds, found.value)
    decreases |cmds|
  {
    if cmds == [] {
    } else if cmds[0].id == id {
      DeleteHead(cmds, id);
    } else {
      DeleteAgreesWithStore(cmds[1..], id);
      DeleteTail(cmds, id);
    }
  }

  /** The first command has the id: with distinct ids, removing it is all the filter does. */
  lemma {:induction false} DeleteHead(cmds: seq<Command>, id: string)
    requires CommandStore.DistinctCommandIds(cmds) && cmds != [] && cmds[0].id == id
    ensures FindFirst(cmds, CommandStore.CommandIdIs(id)) == Some(0)
    ensures DeleteById(cmds, id, CommandId) == CommandStore.RemoveAt(cmds, 0)
  {
    forall k | 0 <= k < |cmds[1..]| ensures CommandId(cmds[1..][k]) != id {
      assert cmds[1..][k] == cmds[k + 1];
    }
    DeleteAbsent(cmds[1..], id, CommandId);
  }

  /** The first command keeps its place; the rest is filtered as the store would remove from it. */
  lemma {:induction false} DeleteTail(cmds: seq<Command>, id: string)
    requires cmds != [] && cmds[0].id != id
    requires var inner := FindFirst(cmds[1..], CommandStore.CommandIdIs(id));
      DeleteById(cmds[1..], id, CommandId)
        == if inner.None? then cmds[1..] else CommandStore.RemoveAt(cmds[1..], inner.value)
    ensures var found := FindFirst(cmds, CommandStore.CommandIdIs(id));
      DeleteById(cmds, id, CommandId) == if found.None? then cmds else CommandStore.RemoveAt(cmds, found.value)
  {
    var rest := cmds[1..];
    var inner := FindFirst(rest, CommandStore.CommandIdIs(id));
    FindFirstSkipsHead(cmds, CommandStore.CommandIdIs(id));
    DeleteKeepsHead(cmds, id);
    assert cmds == [cmds[0]] + rest;
    if inner.Some? {
      RemoveAtCons(cmds[0], rest, inner.value);
    }
  }

  /** A first element without a match only shifts the index found in the rest. */
  lemma {:induction false} FindFirstSkipsHead<T>(xs: seq<T>, p: T -> bool)
    requires xs != [] && !p(xs[0])
    ensures var inner := FindFirst(xs[1..], p);
      FindFirst(xs, p) == if inner.None? then None else Some(inner.value + 1)
  {
  }

  /** A first command without the id stays in front of the filtered rest. */
  lemma {:induction false} DeleteKeepsHead(cmds: seq<Command>, id: string)
    requires cmds != [] && cmds[0].id != id
    ensures DeleteById(cmds, id, CommandId) == [cmds[0]] + DeleteById(cmds[1..], id, CommandId)
  {
  }

  lemma {:induction false} RemoveAtCons<T>(x: T, s: seq<T>, i: nat)
    requires i < |s|
    ensures CommandStore.RemoveAt([x] + s, i + 1) == [x] + CommandStore.RemoveAt(s, i)
  {
    assert ([x] + s)[..i + 1] == [x] + s[..i];
    assert ([x] + s)[i + 2..] == s[i + 1..];
  }

  /** What pressing "save" does with a draft. */
  datatype Submit =
    | Ignored  // no bot is selected
    | Refused  // the draft is incomplete; a message asks for the missing fields
    | Sent     // the draft goes to the server

  /** The command form: a bot, a command text and a response are required. */
  function CommandSubmit(selectedBotId: string, command: string, response: string): (r: Submit)
    ensures r == Ignored <==> selectedBotId == ""
    ensures r == Sent <==> selectedBotId != "" && command != "" && response != ""
  {
    if selectedBotId == "" then Ignored
    else if command == "" || response == "" then Refused
    else Sent
  }

  /** The quick-reply form: a bot, a title, a keyword and a response are required. */
  function QuickReplySubmit(selectedBotId: string, title: string, keyword: string, response: string): (r: Submit)
    ensures r == Ignored <==> selectedBotId == ""
    ensures r == Sent <==> selectedBotId != "" && title != "" && keyword != "" && response != ""
  {
    if selectedBotId == "" then Ignored
    else if title == "" || keyword == "" || response == "" then Refused
    else Sent
  }

  /**
   * The form only checks that fields are non-empty; the store also
   * refuses text that is blank after trimming. A command of one space is
   * sent, and refused with 400.
   */
  lemma FormWeakerThanStore()
    ensures CommandSubmit("bot", " ", "reply") == Sent
    ensures CommandStore.NewCommandText(CommandStore.CommandPayload(Some(" "), None, Some("reply"), None)) == ""
  {
    assert AllSpace(" ");
  }

  /** A command the form sends with a non-blank text passes the store's blank check. */
  lemma SentNonBlankPassesStore(botId: string, command: string, response: string)
    requires CommandSubmit(botId, command, response) == Sent && !AllSpace(command)
    ensures CommandStore.NewCommandText(CommandStore.CommandPayload(Some(command), None, Some(response), None)) != ""
  {
  }
}
