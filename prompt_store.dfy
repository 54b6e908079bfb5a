/**
 * The session store of the terminal: the ordered list of prompt records shown on
 * screen, the current directory, the command history and the state of the vim
 * editor. Prompt ids come from a counter, standing in for generated uuids.
 */
module Prompts {
  import opened Wrappers

  /** One prompt line: the command typed, the reply shown and the directory it was opened in. */
  datatype PromptInstance = PromptInstance(id: nat, command: string, reply: string, currentDir: string, enabled: bool)

  /** Every field of the store that a command can read or change. */
  datatype Session = Session(
    instances: seq<PromptInstance>,
    currentDir: string,
    terminalMode: string,
    history: seq<string>,
    vimVisible: bool,
    vimFilename: string,
    vimContent: string,
    nextId: nat)

  /** The directory a session starts in. */
  const RootDir := "~"

  /** Ids are handed out in increasing order, so every id in the list is distinct and below the counter. */
  predicate ValidSession(s: Session) {
    (forall i, j :: 0 <= i < j < |s.instances| ==> s.instances[i].id < s.instances[j].id) &&
    (forall i :: 0 <= i < |s.instances| ==> s.instances[i].id < s.nextId)
  }

  /** Exactly the last prompt accepts input. */
  predicate OnlyLastEnabled(instances: seq<PromptInstance>) {
    |instances| > 0 && instances[|instances| - 1].enabled &&
    forall i :: 0 <= i < |instances| - 1 ==> !instances[i].enabled
  }

  /** `instances.find(i => i.id === id)`: the position of the first prompt with that id. */
  function FindById(instances: seq<PromptInstance>, id: nat): (r: Option<nat>)
    ensures r.Some? ==> r.value < |instances| && instances[r.value].id == id
    ensures r.Some? ==> forall j :: 0 <= j < r.value ==> instances[j].id != id
    ensures r.None? ==> forall j :: 0 <= j < |instances| ==> instances[j].id != id
  {
    if instances == [] then None
    else if instances[0].id == id then Some(0)
    else match FindById(instances[1..], id)
      case None => None
      case Some(j) => Some(j + 1)
  }

  /** `emptyPromptInstance()`: a blank, enabled prompt in the current directory with a new id. */
  function EmptyPrompt(s: Session): PromptInstance {
    PromptInstance(s.nextId, "", "", s.currentDir, true)
  }

  /** `createNewPromptInstance()`. */
  function CreateNew(s: Session): (r: Session)
    ensures r.instances == s.instances + [PromptInstance(s.nextId, "", "", s.currentDir, true)]
    ensures r.nextId == s.nextId + 1
    ensures r.(instances := s.instances, nextId := s.nextId) == s
    ensures ValidSession(s) ==> ValidSession(r)
  {
    s.(instances := s.instances + [EmptyPrompt(s)], nextId := s.nextId + 1)
  }

  /** `createMessagePrompt(message, cmd)`: a disabled prompt that only shows `message`. */
  function CreateMessage(s: Session, message: string, cmd: string): (r: Session)
    ensures r.instances == s.instances + [PromptInstance(s.nextId, cmd, message, s.currentDir, false)]
    ensures r.nextId == s.nextId + 1
    ensures r.(instances := s.instances, nextId := s.nextId) == s
    ensures ValidSession(s) ==> ValidSession(r)
  {
    s.(instances := s.instances + [EmptyPrompt(s).(enabled := false, reply := message, command := cmd)],
       nextId := s.nextId + 1)
  }

  /** The command `reset` shows the welcome text under. */
  const BioCommand := "cat bio.md"

  /** The text `reset` puts before the terminal mode. */
  const ModeBanner := "Welcome to terminal: "

  /** `reset()`: the welcome text as the output of `cat bio.md`, the mode line, and one open prompt. */
  function ResetSession(s: Session, welcome: string): (r: Session)
    ensures |r.instances| == 3
    ensures r.instances[0] == PromptInstance(s.nextId, BioCommand, welcome, s.currentDir, false)
    ensures r.instances[1] == PromptInstance(s.nextId + 1, "", ModeBanner + s.terminalMode, s.currentDir, false)
    ensures r.instances[2] == PromptInstance(s.nextId + 2, "", "", s.currentDir, true)
    ensures r.(instances := s.instances, nextId := s.nextId) == s && r.nextId == s.nextId + 3
  {
    var cleared := s.(instances := []);
    var bio := CreateMessage(cleared, welcome, BioCommand);
    var mode := CreateMessage(bio, ModeBanner + s.terminalMode, "");
    CreateNew(mode)
  }

  /** After `reset` exactly the last prompt is open, and ids are valid again. */
  lemma {:induction false} ResetSessionValid(s: Session, welcome: string)
    ensures OnlyLastEnabled(ResetSession(s, welcome).instances) && ValidSession(ResetSession(s, welcome))
  {
    var r := ResetSession(s, welcome);
    assert forall i :: 0 <= i < 3 ==> r.instances[i].id == s.nextId + i;
  }

  /**
   * `createNewPromptInstanceAndDisablePreviousInstance(previous)`: appends an open
   * prompt, then disables the prompt at `previous` if the list held it.
   */
  function CreateNewAndDisable(s: Session, previous: Option<nat>): (r: Session)
    ensures |r.instances| == |s.instances| + 1
    ensures r.instances[|s.instances|] == PromptInstance(s.nextId, "", "", s.currentDir, true)
    ensures forall j :: 0 <= j < |s.instances| ==>
      r.instances[j] == if previous == Some(j) then s.instances[j].(enabled := false) else s.instances[j]
    ensures r.(instances := s.instances, nextId := s.nextId) == s && r.nextId == s.nextId + 1
    ensures ValidSession(s) ==> ValidSession(r)
  {
    var t := CreateNew(s);
    if previous.Some? && previous.value < |s.instances| then
      t.(instances := t.instances[previous.value := t.instances[previous.value].(enabled := false)])
    else t
  }

  /** Submitting the only open prompt, the last one, leaves only the new last prompt open. */
  lemma {:induction false} DisableLastKeepsOneOpen(s: Session)
    requires OnlyLastEnabled(s.instances)
    ensures OnlyLastEnabled(CreateNewAndDisable(s, Some(|s.instances| - 1)).instances)
  {
    var r := CreateNewAndDisable(s, Some(|s.instances| - 1));
    forall i | 0 <= i < |r.instances| - 1
      ensures !r.instances[i].enabled
    {
      if i < |s.instances| - 1 {
        assert r.instances[i] == s.instances[i];
      }
    }
  }

  /** The id of a new prompt differs from every id already in the list. */
  lemma {:induction false} NewIdIsFresh(s: Session)
    requires ValidSession(s)
    ensures forall j :: 0 <= j < |s.instances| ==> s.instances[j].id != EmptyPrompt(s).id
    ensures FindById(CreateNew(s).instances, s.nextId) == Some(|s.instances|)
  {
    var l := CreateNew(s).instances;
    assert l[|s.instances|].id == s.nextId;
    assert forall j :: 0 <= j < |s.instances| ==> l[j] == s.instances[j];
  }

  /**
   * Sets the command of the first prompt with id `id`, as the server-mode submission
   * does; nothing is appended and no prompt is enabled or disabled.
   */
  function SetCommand(instances: seq<PromptInstance>, id: nat, cmd: string): (r: seq<PromptInstance>)
    ensures |r| == |instances|
    ensures forall j :: 0 <= j < |r| ==> r[j].(command := instances[j].command) == instances[j]
    ensures forall j :: 0 <= j < |r| ==> r[j].command == if FindById(instances, id) == Some(j) then cmd else instances[j].command
  {
    match FindById(instances, id)
    case None => instances
    case Some(i) => instances[i := instances[i].(command := cmd)]
  }

  class CommandPromptStore {
    var instances: seq<PromptInstance>
    var currentDir: string
    var terminalMode: string
    var history: seq<string>
    var vimVisible: bool
    var vimFilename: string
    var vimContent: string
    /** The counter that replaces uuid generation. */
    var nextId: nat
    /** The welcome text, a static message. */
    const welcome: string

    function State(): Session
      reads this
    {
      Session(instances, currentDir, terminalMode, history, vimVisible, vimFilename, vimContent, nextId)
    }

    /** The store starts in `~` in client mode, and `reset()` fills in the first three prompts. */
    constructor(welcome: string)
      ensures this.welcome == welcome
      ensures State() == ResetSession(Session([], RootDir, "client", [], false, "", "", 0), welcome)
    {
      this.welcome := welcome;
      instances := [];
      currentDir := RootDir;
      terminalMode := "client";
      history := [];
      vimVisible := false;
      vimFilename := "";
      vimContent := "";
      nextId := 0;
      new;
      Reset();
    }

    /** `emptyPromptInstance()`: takes a new id, changes nothing else. */
    method EmptyPromptInstance() returns (p: PromptInstance)
      modifies this
      ensures p == EmptyPrompt(old(State()))
      ensures State() == old(State()).(nextId := old(nextId) + 1)
    {
      p := PromptInstance(nextId, "", "", currentDir, true);
      nextId := nextId + 1;
    }

    method CreateNewPromptInstance()
      modifies this
      ensures State() == CreateNew(old(State()))
    {
      var p := EmptyPromptInstance();
      instances := instances + [p];
    }

    method CreateMessagePrompt(message: string, cmd: string)
      modifies this
      ensures State() == CreateMessage(old(State()), message, cmd)
    {
      var p := EmptyPromptInstance();
      p := p.(enabled := false);
      p := p.(reply := message);
      p := p.(command := cmd);
      instances := instances + [p];
    }

    method Reset()
      modifies this
      ensures State() == ResetSession(old(State()), welcome)
    {
      instances := [];
      CreateMessagePrompt(welcome, BioCommand);
      CreateMessagePrompt(ModeBanner + terminalMode, "");
      CreateNewPromptInstance();
    }

    /** The previous prompt is named by its position in the list before the new prompt is appended. */
    method CreateNewPromptInstanceAndDisablePreviousInstance(previous: Option<nat>)
      modifies this
      ensures State() == CreateNewAndDisable(old(State()), previous)
    {
      var count := |instances|;
      CreateNewPromptInstance();
      if previous.Some? && previous.value < count {
        var i := previous.value;
        instances := instances[i := instances[i].(enabled := false)];
      }
    }

    /**
     * `handleCommandInputEnterServer(id, command, callback)`: records the command on
     * the prompt and reports whether the server callback is invoked; the callback
     * itself is host code.
     */
    method HandleCommandInputEnterServer(promptId: nat, currentCommand: string) returns (callbackInvoked: bool)
      modifies this
      ensures callbackInvoked <==> FindById(old(instances), promptId).Some?
      ensures State() == old(State()).(instances := SetCommand(old(instances), promptId, currentCommand))
    {
      var found := FindById(instances, promptId);
      if found.None? {
        return false;
      }
      var i := found.value;
      instances := instances[i := instances[i].(command := currentCommand)];
      callbackInvoked := true;
    }
  }
}
