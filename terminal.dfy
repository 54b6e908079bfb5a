/**
 * Submitting a prompt: the enter key on an open prompt records the typed command on
 * that prompt, runs the interpreter on it, and opens a new prompt below it while
 * disabling the submitted one.
 *
 * The prompt handed to the interpreter is the very record that sits in the prompt
 * list, so the interpreter's changes to it (trimmed command, reply) show in the list,
 * unless the command replaced the list itself (`clear`), after which the record is no
 * longer in it. The model passes prompts as values and writes the result back at the
 * prompt's position when the list still holds one there.
 */
module Terminal {
  import opened Wrappers
  import opened JsText
  import opened Files
  import opened Prompts
  import opened Commands

  /** The two stores as the interpreter sees them. */
  datatype World = World(session: Session, dirs: Listing)

  /** Whether submitting `command` runs `clear`, the only verb that replaces the prompt list. */
  predicate Clears(command: string) {
    command != "" && CommandPrefix(Trim(command)) == Some(Clear)
  }

  /** `handleCommandInputEnter(promptId, currentCommand)`. */
  function Submit(w: World, host: Host, promptId: nat, currentCommand: string): World {
    match FindById(w.session.instances, promptId)
    case None => w
    case Some(i) =>
      var p := w.session.instances[i].(command := currentCommand);
      Finish(i, CommandStep(w.session.(instances := w.session.instances[i := p]), w.dirs, host, p))
  }

  /**
   * After `handleCommand`: the handled prompt shows at its position if the list still
   * has one, a new prompt is opened and the one at the position is disabled.
   */
  function Finish(i: nat, o: Outcome): World {
    World(FinishSession(i, o.session, o.prompt), o.dirs)
  }

  /** `Finish` on the prompt store alone. */
  function FinishSession(i: nat, s: Session, handled: PromptInstance): Session {
    var t := if i < |s.instances| then s.(instances := s.instances[i := handled]) else s;
    CreateNewAndDisable(t, Some(i))
  }

  /** What `CommandStep` does to the prompt list and the counter, as `Submit` runs it. */
  lemma {:induction false} SubmitStep(w: World, host: Host, i: nat, currentCommand: string)
    requires i < |w.session.instances|
    ensures var p := w.session.instances[i].(command := currentCommand);
      var o := CommandStep(w.session.(instances := w.session.instances[i := p]), w.dirs, host, p);
      o.session.instances == (if Clears(currentCommand) then [] else w.session.instances[i := p]) &&
      o.session.nextId == w.session.nextId && o.prompt.id == p.id &&
      o.prompt.enabled == p.enabled && o.prompt.currentDir == p.currentDir &&
      o.prompt.command == (if currentCommand == "" then "" else Trim(currentCommand))
  {
    var p := w.session.instances[i].(command := currentCommand);
    var s1 := w.session.(instances := w.session.instances[i := p]);
    CommandStepSession(s1, w.dirs, host, p);
    if currentCommand != "" {
      CommandStepDispatches(s1, w.dirs, host, p);
      var c := Trim(currentCommand);
      DispatchKeepsPrompt(CommandPrefix(c), s1.(history := s1.history + [c]), w.dirs, host, p.(command := c));
    }
  }

  /** An id that no prompt carries leaves both stores as they were. */
  lemma {:induction false} SubmitUnknownId(w: World, host: Host, promptId: nat, currentCommand: string)
    requires forall j :: 0 <= j < |w.session.instances| ==> w.session.instances[j].id != promptId
    ensures Submit(w, host, promptId, currentCommand) == w
  {
  }

  /** When the list was kept, the handled prompt ends up disabled in place and one open prompt follows. */
  lemma {:induction false} FinishKept(i: nat, o: Outcome)
    requires i < |o.session.instances|
    ensures var r := Finish(i, o).session;
      var n := |o.session.instances|;
      |r.instances| == n + 1 &&
      r.instances[n] == PromptInstance(o.session.nextId, "", "", o.session.currentDir, true) &&
      r.nextId == o.session.nextId + 1 && r.currentDir == o.session.currentDir &&
      (forall j :: 0 <= j < n && j != i ==> r.instances[j] == o.session.instances[j]) &&
      r.instances[i] == o.prompt.(enabled := false)
  {
  }

  /** When the list was replaced by an empty one, only the new open prompt is left. */
  lemma {:induction false} FinishCleared(i: nat, o: Outcome)
    requires o.session.instances == []
    ensures var r := Finish(i, o).session;
      r.instances == [PromptInstance(o.session.nextId, "", "", o.session.currentDir, true)] &&
      r.nextId == o.session.nextId + 1 && r.currentDir == o.session.currentDir
  {
  }

  /** Ids stay valid when the handled prompt keeps the id of the record at its position. */
  lemma {:induction false} FinishKeepsIds(i: nat, o: Outcome)
    requires ValidSession(o.session)
    requires i < |o.session.instances| ==> o.prompt.id == o.session.instances[i].id
    ensures ValidSession(Finish(i, o).session)
  {
    var after := o.session.instances;
    if i < |after| {
      SameIdsValid(o.session, o.session.(instances := after[i := o.prompt]));
    }
  }

  /** Sessions whose prompts carry the same ids, with the same counter, are valid together. */
  lemma {:induction false} SameIdsValid(a: Session, b: Session)
    requires ValidSession(a) && |a.instances| == |b.instances| && a.nextId == b.nextId
    requires forall j :: 0 <= j < |a.instances| ==> a.instances[j].id == b.instances[j].id
    ensures ValidSession(b)
  {
  }

  /** A step that keeps the list, or empties it, and keeps the counter and the prompt's id keeps ids valid. */
  lemma {:induction false} StepKeepsIds(before: Session, i: nat, p: PromptInstance, o: Outcome)
    requires ValidSession(before) && i < |before.instances| && p.id == before.instances[i].id
    requires o.session.instances == [] || o.session.instances == before.instances[i := p]
    requires o.session.nextId == before.nextId && o.prompt.id == p.id
    ensures ValidSession(o.session)
    ensures i < |o.session.instances| ==> o.prompt.id == o.session.instances[i].id
  {
    assert forall j :: 0 <= j < |o.session.instances| ==> o.session.instances[j].id == before.instances[j].id;
  }

  /**
   * A submission that does not clear keeps every other prompt as it was, leaves the
   * submitted prompt disabled with the trimmed command in it, and appends one new,
   * empty, open prompt with the next id in the directory the command left.
   */
  lemma {:induction false} SubmitAppendsPrompt(w: World, host: Host, i: nat, currentCommand: string)
    requires i < |w.session.instances| && !Clears(currentCommand)
    requires forall j :: 0 <= j < i ==> w.session.instances[j].id != w.session.instances[i].id
    ensures var r := Submit(w, host, w.session.instances[i].id, currentCommand).session;
      var n := |w.session.instances|;
      |r.instances| == n + 1 &&
      r.instances[n] == PromptInstance(w.session.nextId, "", "", r.currentDir, true) &&
      r.nextId == w.session.nextId + 1 &&
      (forall j :: 0 <= j < n && j != i ==> r.instances[j] == w.session.instances[j]) &&
      r.instances[i].id == w.session.instances[i].id && !r.instances[i].enabled &&
      r.instances[i].command == (if currentCommand == "" then "" else Trim(currentCommand))
  {
    var id := w.session.instances[i].id;
    assert FindById(w.session.instances, id) == Some(i);
    var p := w.session.instances[i].(command := currentCommand);
    SubmitStep(w, host, i, currentCommand);
    FinishKept(i, CommandStep(w.session.(instances := w.session.instances[i := p]), w.dirs, host, p));
  }

  /** After `clear` the list holds only the new open prompt. */
  lemma {:induction false} SubmitClearLeavesOnePrompt(w: World, host: Host, i: nat, currentCommand: string)
    requires i < |w.session.instances| && Clears(currentCommand)
    requires forall j :: 0 <= j < i ==> w.session.instances[j].id != w.session.instances[i].id
    ensures var r := Submit(w, host, w.session.instances[i].id, currentCommand).session;
      r.instances == [PromptInstance(w.session.nextId, "", "", r.currentDir, true)] &&
      r.nextId == w.session.nextId + 1
  {
    var id := w.session.instances[i].id;
    assert FindById(w.session.instances, id) == Some(i);
    var p := w.session.instances[i].(command := currentCommand);
    SubmitStep(w, host, i, currentCommand);
    FinishCleared(i, CommandStep(w.session.(instances := w.session.instances[i := p]), w.dirs, host, p));
  }

  /** Submitting the last prompt, the only open one, leaves exactly the new last prompt open. */
  lemma {:induction false} SubmitKeepsOneOpen(w: World, host: Host, i: nat, currentCommand: string)
    requires OnlyLastEnabled(w.session.instances) && i == |w.session.instances| - 1
    requires forall j :: 0 <= j < i ==> w.session.instances[j].id != w.session.instances[i].id
    ensures OnlyLastEnabled(Submit(w, host, w.session.instances[i].id, currentCommand).session.instances)
  {
    if Clears(currentCommand) {
      SubmitClearLeavesOnePrompt(w, host, i, currentCommand);
    } else {
      SubmitAppendsPrompt(w, host, i, currentCommand);
      OneOpenAfter(w.session.instances, Submit(w, host, w.session.instances[i].id, currentCommand).session.instances);
    }
  }

  /** The list after a step that disabled the last prompt and appended an open one. */
  lemma {:induction false} OneOpenAfter(before: seq<PromptInstance>, after: seq<PromptInstance>)
    requires OnlyLastEnabled(before) && |after| == |before| + 1
    requires after[|before|].enabled && !after[|before| - 1].enabled
    requires forall j :: 0 <= j < |before| - 1 ==> after[j] == before[j]
    ensures OnlyLastEnabled(after)
  {
  }

  /** Ids stay distinct, increasing and below the counter across any submission. */
  lemma {:induction false} SubmitKeepsIds(w: World, host: Host, promptId: nat, currentCommand: string)
    requires ValidSession(w.session)
    ensures ValidSession(Submit(w, host, promptId, currentCommand).session)
  {
    match FindById(w.session.instances, promptId) {
      case None =>
      case Some(i) =>
        var p := w.session.instances[i].(command := currentCommand);
        var o := CommandStep(w.session.(instances := w.session.instances[i := p]), w.dirs, host, p);
        SubmitStep(w, host, i, currentCommand);
        StepKeepsIds(w.session, i, p, o);
        FinishKeepsIds(i, o);
    }
  }

  /**
   * `handleCommandInputEnter(promptId, currentCommand)` on the two stores: finds the
   * prompt, sets its command, runs `handleCommand` on it, then opens a new prompt and
   * disables the submitted one.
   */
  method HandleCommandInputEnter(store: CommandPromptStore, files: FilesStore, host: Host, promptId: nat, currentCommand: string)
    modifies store, files
    ensures World(store.State(), files.dirs) == Submit(World(old(store.State()), old(files.dirs)), host, promptId, currentCommand)
  {
    var found := FindById(store.instances, promptId);
    if found.None? {
      return;
    }
    var i := found.value;
    var promptInstance := store.instances[i].(command := currentCommand);
    store.instances := store.instances[i := promptInstance];
    ghost var before := store.State();
    assert before == old(store.State()).(instances := old(store.State()).instances[i := promptInstance]);
    var handled := HandleCommand(store, files, host, promptInstance);
    ghost var o := Outcome(store.State(), files.dirs, handled);
    assert o == CommandStep(before, old(files.dirs), host, promptInstance);
    WriteBackAndOpen(store, i, handled);
  }

  /** The end of `handleCommandInputEnter`: the handled prompt is written back, a new prompt opened. */
  method WriteBackAndOpen(store: CommandPromptStore, i: nat, handled: PromptInstance)
    modifies store
    ensures store.State() == FinishSession(i, old(store.State()), handled)
  {
    if i < |store.instances| {
      store.instances := store.instances[i := handled];
    }
    store.CreateNewPromptInstanceAndDisablePreviousInstance(Some(i));
  }
}
