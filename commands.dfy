/**
 * The command interpreter: a submitted line is trimmed and recorded in the history,
 * its first word selects one of twelve verbs, and the verb's handler changes the
 * session, the filesystem or the reply of the prompt that was submitted.
 */
module Commands {
  import opened Wrappers
  import opened JsText
  import opened JsMap
  import opened Files
  import opened Prompts

  // ---------------------------------------------------------------------------
  // Verbs

  datatype Verb = Ls | Cd | Pwd | Clear | Cat | Top | History | Touch | Vim | ClearLocalStorage | Remove | Help

  function VerbName(v: Verb): string {
    match v
    case Ls => "ls"
    case Cd => "cd"
    case Pwd => "pwd"
    case Clear => "clear"
    case Cat => "cat"
    case Top => "top"
    case History => "history"
    case Touch => "touch"
    case Vim => "vim"
    case ClearLocalStorage => "clearLocalStorage"
    case Remove => "rm"
    case Help => "help"
  }

  /** The `Commands` list, in the order `help` prints it. */
  const AllVerbs: seq<Verb> := [Ls, Cd, Pwd, Clear, Cat, Top, History, Touch, Vim, ClearLocalStorage, Remove, Help]

  /** The verb whose name is exactly `word` (case-sensitive), if any. */
  function VerbOf(word: string): (r: Option<Verb>)
    ensures r.Some? ==> VerbName(r.value) == word
    ensures r.None? ==> forall v: Verb :: VerbName(v) != word
  {
    if word == "ls" then Some(Ls)
    else if word == "cd" then Some(Cd)
    else if word == "pwd" then Some(Pwd)
    else if word == "clear" then Some(Clear)
    else if word == "cat" then Some(Cat)
    else if word == "top" then Some(Top)
    else if word == "history" then Some(History)
    else if word == "touch" then Some(Touch)
    else if word == "vim" then Some(Vim)
    else if word == "clearLocalStorage" then Some(ClearLocalStorage)
    else if word == "rm" then Some(Remove)
    else if word == "help" then Some(Help)
    else None
  }

  /** Names identify verbs: reading a verb's name back gives the verb. */
  lemma {:induction false} VerbOfName(v: Verb)
    ensures VerbOf(VerbName(v)) == Some(v)
  {
  }

  /** The list holds every verb, each once. */
  lemma {:induction false} AllVerbsComplete(v: Verb)
    ensures v in AllVerbs
    ensures forall i, j :: 0 <= i < j < |AllVerbs| ==> AllVerbs[i] != AllVerbs[j]
  {
  }

  // ---------------------------------------------------------------------------
  // Constants

  const BadCommandErrorMessage := "&nbsp;Command not found! Type <code>help</code> to know all options."
  const ValidExtensions: seq<string> := ["txt", "md", "pem", "js"]
  const FolderColor := "#007bff"
  const FileColor := "#dbff00"

  // Replies, named once so that each long text is written in one place.

  /** `rm` with nothing after it. */
  const RmUsage := "Proper usage of rm command is with rm filename | rm -r folder_name"
  /** `rm -r` on a name that looks like a file: the text before the command. */
  const RmFileDetected := "File detected in command "
  /** The text after the command in that reply. */
  const RmFileDetectedEnd := " while using -r option, please remove option -r to delete a file"
  /** `rm` on a name that does not look like a file: the text before the command. */
  const RmFolderDetected := "Folder detected in command "
  /** The text after the command in that reply. */
  const RmFolderDetectedEnd := ", please use option -r to delete a folder"
  /** `touch` with no name. */
  const TouchUsage := "Please provide a filename for touch command."
  /** `vim` with no name. */
  const VimUsage := "Please provide a filename to start editing."
  /** `cat` with no name. */
  const CatUsage := "Please provide file name to view!"
  /** `cd` to a name the root does not hold. */
  const NoSuchDirectory := "No such directory!"
  /** The text `help` puts before the verb list. */
  const HelpIntro := "Need help? Try followings: <code>"

  /** `marked.parse(...).toString()`, which the model leaves as the identity on its input. */
  function Rendered(markdown: string): string {
    markdown
  }

  // ---------------------------------------------------------------------------
  // Tokenising

  /**
   * `isFile(name)`: there is a dot, and the text after the last dot, lower-cased, is
   * one of the valid extensions (so an empty extension never is).
   */
  function IsFile(fileName: string): bool {
    var parts := Split(fileName, ['.']);
    if |parts| <= 1 then false
    else
      var extension := parts[|parts| - 1];
      if extension == "" then false
      else ToLower(extension) in ValidExtensions
  }

  lemma {:induction false} IsFileIff(fileName: string)
    ensures IsFile(fileName) <==> '.' in fileName && ToLower(AfterLast(fileName, '.')) in ValidExtensions
  {
    var parts := Split(fileName, ['.']);
    var extension := AfterLast(fileName, '.');
    SplitLastChar(fileName, '.');
    SplitSingle(fileName, ['.']);
    IncludesChar(fileName, '.');
    if extension == "" {
      assert ToLower(extension) == "";
    }
  }

  /** The extension is what follows the last dot, compared without case; a trailing dot gives none. */
  lemma {:induction false} IsFileByExtension(stem: string, extension: string)
    requires '.' !in extension
    ensures IsFile(stem + "." + extension) <==> ToLower(extension) in ValidExtensions
    ensures extension == "" ==> !IsFile(stem + "." + extension)
  {
    var name := stem + "." + extension;
    IsFileIff(name);
    assert name[|name| - |extension| - 1] == '.';
    AfterLastUnique(name, '.', extension);
  }

  /** `"A.MD"` is a file name; `"a."` (empty extension) and `"notes"` (no dot) are not. */
  lemma {:induction false} IsFileSamples()
    ensures IsFile("A.MD") && !IsFile("a.") && !IsFile("notes")
  {
    assert "A.MD" == "A" + "." + "MD";
    IsFileByExtension("A", "MD");
    assert ToLower("MD") == "md";
    assert "a." == "a" + "." + "";
    IsFileByExtension("a", "");
    NoDotNotFile("notes");
  }

  /** A name without a dot is never a file name. */
  lemma {:induction false} NoDotNotFile(name: string)
    requires '.' !in name
    ensures !IsFile(name)
  {
    IsFileIff(name);
  }

  /** A one-character name is never a file, not even ".". */
  lemma {:induction false} SingleCharNotFile(c: char)
    ensures !IsFile([c])
  {
    IsFileIff([c]);
    if c == '.' {
      AfterLastUnique([c], '.', "");
    }
  }

  /** `isInputCommandAllowed`: a non-empty command whose first word is a verb. */
  function IsInputCommandAllowed(command: string): bool {
    command != "" && CommandPrefix(command).Some?
  }

  /** `commandPrefix`: the verb named by the text before the first space, trimmed. */
  function CommandPrefix(command: string): Option<Verb> {
    VerbOf(Trim(Split(command, " ")[0]))
  }

  lemma {:induction false} CommandPrefixIs(command: string)
    ensures CommandPrefix(command) == VerbOf(Trim(Before(command, " ")))
    ensures CommandPrefix(command).None? <==> forall v: Verb :: VerbName(v) != Trim(Before(command, " "))
  {
    SplitHeadTail(command, " ");
    if CommandPrefix(command).None? {
    } else {
      assert VerbName(CommandPrefix(command).value) == Trim(Before(command, " "));
    }
  }

  /**
   * `commandSuffix`: the second space-separated word, trimmed; `None` (JavaScript's
   * `undefined`) exactly when there is no space at all.
   */
  function CommandSuffix(command: string): Option<string> {
    var parts := Split(command, " ");
    if |parts| > 1 then Some(Trim(parts[1])) else None
  }

  lemma {:induction false} CommandSuffixIs(command: string)
    ensures CommandSuffix(command).None? <==> ' ' !in command
    ensures CommandSuffix(command).Some? ==> CommandSuffix(command).value == Trim(Before(After(command, " "), " "))
  {
    SplitSingle(command, [' ']);
    IncludesChar(command, ' ');
    SplitHeadTail(command, " ");
    SplitHeadTail(After(command, " "), " ");
  }

  /** The argument as the handlers test it: `undefined` and `""` both count as missing. */
  function Argument(command: string): string {
    match CommandSuffix(command)
    case None => ""
    case Some(a) => a
  }

  /** `commandSuffixAll`: everything after the first space, trimmed. */
  function CommandSuffixAll(command: string): string {
    Trim(Join(Split(command, " ")[1..], " "))
  }

  lemma {:induction false} CommandSuffixAllIs(command: string)
    ensures CommandSuffixAll(command) == Trim(After(command, " "))
  {
    SplitSingle(command, " ");
    SplitHeadTail(command, " ");
    JoinSplit(After(command, " "), " ");
  }

  /** A double space gives an empty second word. */
  lemma {:induction false} DoubleSpaceEmptySuffix(verb: string, rest: string)
    requires ' ' !in verb
    ensures CommandSuffix(verb + "  " + rest) == Some("")
  {
    var s := verb + "  " + rest;
    assert s == verb + [' '] + (" " + rest);
    AfterFirstSpace(verb, " " + rest);
    LeadingSpaceBefore(rest);
    CommandSuffixIs(s);
    TrimClean([]);
  }

  /** The text after the first space when the text before it has none. */
  lemma {:induction false} AfterFirstSpace(a: string, b: string)
    requires ' ' !in a
    ensures After(a + [' '] + b, " ") == b && ' ' in a + [' '] + b
  {
    IndexOfAfterFree(a, ' ', b);
    assert (a + [' '] + b)[|a|] == ' ';
  }

  /** A text that starts with a space has nothing before its first space. */
  lemma {:induction false} LeadingSpaceBefore(rest: string)
    ensures Before(" " + rest, " ") == []
  {
    IndexOfAfterFree([], ' ', rest);
    assert " " + rest == [] + [' '] + rest;
  }

  /** `getCurrentDirName`: the last `/`-separated segment of the current directory. */
  function GetCurrentDirName(currentDir: string): string {
    var allDirs := Split(currentDir, ['/']);
    allDirs[|allDirs| - 1]
  }

  lemma {:induction false} CurrentDirNameIs(currentDir: string)
    ensures GetCurrentDirName(currentDir) == AfterLast(currentDir, '/')
    ensures '/' !in GetCurrentDirName(currentDir)
  {
    SplitLastChar(currentDir, '/');
    AfterLastSuffix(currentDir, '/');
  }

  // ---------------------------------------------------------------------------
  // Searching the tree

  /** What `getFileRecursively` returns: a non-empty file text, a directory map, or `[]`. */
  datatype Found = Text(text: string) | Folder(listing: Listing) | NoMatch

  /** `map.get(name)` when the value is truthy: an empty file text is not. */
  function DirectHit(m: Listing, name: string): Found {
    match Get<Entry>(m, name)
    case Some(File(s)) => if s == "" then NoMatch else Text(s)
    case Some(Dir(c)) => Folder(c)
    case None => NoMatch
  }

  /** The position of the first entry that is a directory. */
  function FirstDir(m: Listing): (r: Option<nat>)
    ensures r.Some? ==> r.value < |m| && m[r.value].1.Dir? && forall j :: 0 <= j < r.value ==> !m[j].1.Dir?
    ensures r.None? ==> forall j :: 0 <= j < |m| ==> !m[j].1.Dir?
  {
    if m == [] then None
    else if m[0].1.Dir? then Some(0)
    else match FirstDir(m[1..])
      case None => None
      case Some(j) => Some(j + 1)
  }

  /**
   * `getFileRecursively(name, m)`: a truthy direct hit, or else the result of
   * searching the first sub-directory only (its result, even `[]`, is truthy, so the
   * loop returns after one call). Whatever it returns is truthy.
   */
  function FindRec(name: string, m: Listing): (r: Found)
    ensures r.Text? ==> r.text != ""
    decreases m
  {
    var hit := DirectHit(m, name);
    if !hit.NoMatch? then hit
    else match FirstDir(m)
      case None => NoMatch
      case Some(i) =>
        assert m[i] in m;
        assert m[i].1 < m[i];
        FindRec(name, m[i].1.children)
  }

  /** The directory `m`, its first sub-directory, that one's first sub-directory, and so on. */
  function DescentChain(m: Listing): (c: seq<Listing>)
    ensures |c| >= 1 && c[0] == m
    ensures forall k :: 0 <= k < |c| - 1 ==>
      FirstDir(c[k]).Some? && c[k + 1] == c[k][FirstDir(c[k]).value].1.children
    ensures FirstDir(c[|c| - 1]).None?
    decreases m
  {
    match FirstDir(m)
    case None => [m]
    case Some(i) =>
      assert m[i] in m;
      assert m[i].1 < m[i];
      var rest := DescentChain(m[i].1.children);
      assert forall k :: 1 <= k < |rest| + 1 ==> ([m] + rest)[k] == rest[k - 1];
      [m] + rest
  }

  /** Looks `name` up in each directory of `chain` in turn and returns the first truthy hit. */
  function SearchChain(chain: seq<Listing>, name: string): Found {
    if chain == [] then NoMatch
    else
      var hit := DirectHit(chain[0], name);
      if !hit.NoMatch? then hit else SearchChain(chain[1..], name)
  }

  /** The search finds nothing exactly when no directory of the chain has a truthy entry. */
  lemma {:induction false} SearchChainNoMatch(chain: seq<Listing>, name: string)
    ensures SearchChain(chain, name).NoMatch? <==> forall k :: 0 <= k < |chain| ==> DirectHit(chain[k], name).NoMatch?
  {
    if chain != [] {
      SearchChainNoMatch(chain[1..], name);
      assert forall k :: 1 <= k < |chain| ==> chain[1..][k - 1] == chain[k];
    }
  }

  /** The search returns the hit nearest the start of the chain. */
  lemma {:induction false} SearchChainFirst(chain: seq<Listing>, name: string, k: nat)
    requires k < |chain| && !DirectHit(chain[k], name).NoMatch?
    requires forall j :: 0 <= j < k ==> DirectHit(chain[j], name).NoMatch?
    ensures SearchChain(chain, name) == DirectHit(chain[k], name)
  {
    if k > 0 {
      assert forall j :: 0 <= j < k - 1 ==> chain[1..][j] == chain[j + 1];
      SearchChainFirst(chain[1..], name, k - 1);
    }
  }

  /** `getFileRecursively` searches exactly the descent chain, top first. */
  lemma {:induction false} FindRecSearchesDescent(name: string, m: Listing)
    ensures FindRec(name, m) == SearchChain(DescentChain(m), name)
    decreases m
  {
    match FirstDir(m) {
      case None =>
        assert DescentChain(m) == [m];
        assert [m][1..] == [];
      case Some(i) =>
        assert m[i] in m;
        assert m[i].1 < m[i];
        var sub := m[i].1.children;
        FindRecSearchesDescent(name, sub);
        var rest := DescentChain(sub);
        assert DescentChain(m) == [m] + rest;
        assert ([m] + rest)[1..] == rest;
    }
  }

  /** A file in the second sub-directory is never reached. */
  lemma {:induction false} SecondFolderNotSearched()
    ensures FindRec("x.md", [("a", Dir([])), ("b", Dir([("x.md", File("hi"))]))]) == NoMatch
  {
    var m: Listing := [("a", Dir([])), ("b", Dir([("x.md", File("hi"))]))];
    assert Get(m, "x.md") == None;
    assert FirstDir(m) == Some(0);
    assert FindRec("x.md", []) == NoMatch;
  }

  // ---------------------------------------------------------------------------
  // Listing

  /** `Array.from(text)` filtered by `isFile`: every character is an item of its own. */
  function CharWords(s: string): seq<string> {
    if s == [] then [] else (if IsFile([s[0]]) then [[s[0]]] else []) + CharWords(s[1..])
  }

  /**
   * `Array.from(map)` flattened: each `[key, value]` pair contributes its key when the
   * key is file-named and its value when that is a text that looks like a file name.
   */
  function EntryWords(m: Listing): seq<string> {
    if m == [] then []
    else
      (if IsFile(m[0].0) then [m[0].0] else []) +
      (match m[0].1 case File(t) => (if IsFile(t) then [t] else []) case Dir(_) => []) +
      EntryWords(m[1..])
  }

  /** `mapDirsToString(content)`: the file-like words of the found value, space-joined. */
  function MapDirsToString(content: Found): string {
    match content
    case Text(s) => Join(CharWords(s), " ")
    case Folder(l) => Join(EntryWords(l), " ")
    case NoMatch => Join([], " ")
  }

  /** The names of `ks` that look like files, in order. */
  function FileNames(ks: seq<string>): (r: seq<string>)
    ensures forall w :: w in r <==> w in ks && IsFile(w)
  {
    if ks == [] then []
    else (if IsFile(ks[0]) then [ks[0]] else []) + FileNames(ks[1..])
  }

  /** Order: the file names of a longer list are those of the shorter one, then the new name if it is one. */
  lemma {:induction false} FileNamesSnoc(ks: seq<string>, k: string)
    ensures FileNames(ks + [k]) == FileNames(ks) + (if IsFile(k) then [k] else [])
  {
    if ks == [] {
      assert FileNames([k]) == (if IsFile(k) then [k] else []) + FileNames([]);
    } else {
      assert (ks + [k])[0] == ks[0] && (ks + [k])[1..] == ks[1..] + [k];
      FileNamesSnoc(ks[1..], k);
      if IsFile(ks[0]) {
        assert FileNames(ks + [k]) == [ks[0]] + FileNames(ks[1..] + [k]);
        assert FileNames(ks) == [ks[0]] + FileNames(ks[1..]);
      } else {
        assert FileNames(ks + [k]) == FileNames(ks[1..] + [k]);
        assert FileNames(ks) == FileNames(ks[1..]);
      }
    }
  }

  /** A text is listed as nothing, since no single character is a file name. */
  lemma {:induction false} TextListsNothing(s: string)
    ensures CharWords(s) == [] && MapDirsToString(Text(s)) == ""
  {
    if s != [] {
      SingleCharNotFile(s[0]);
      TextListsNothing(s[1..]);
    }
  }

  /** Every word of a directory's listing looks like a file name. */
  lemma {:induction false} EntryWordsAreFiles(m: Listing)
    ensures forall w :: w in EntryWords(m) ==> IsFile(w)
  {
    if m != [] {
      EntryWordsAreFiles(m[1..]);
    }
  }

  /**
   * When no file's text looks like a file name, a directory is listed as exactly its
   * file-named keys, in insertion order; sub-directories are not listed.
   */
  lemma {:induction false} EntryWordsAreFileKeys(m: Listing)
    requires forall i :: 0 <= i < |m| && m[i].1.File? ==> !IsFile(m[i].1.text)
    ensures EntryWords(m) == FileNames(Keys(m))
  {
    if m != [] {
      EntryWordsAreFileKeys(m[1..]);
      var ks := Keys(m);
      assert ks[0] == m[0].0 && ks[1..] == Keys(m[1..]);
    }
  }

  /** The `span` `formatLsReply` wraps around one word, coloured as a file or a folder. */
  function LsSpan(r: string): string {
    if !IsFile(r) then "<span style=\"color: " + FolderColor + ";\">" + r + "</span>"
    else "<span style=\"color:" + FileColor + ";\">" + r + "</span>"
  }

  function Spans(words: seq<string>): (r: seq<string>)
    ensures |r| == |words| && forall i :: 0 <= i < |words| ==> r[i] == LsSpan(words[i])
  {
    if words == [] then [] else [LsSpan(words[0])] + Spans(words[1..])
  }

  lemma {:induction false} SpansSnoc(words: seq<string>, w: string)
    ensures Spans(words + [w]) == Spans(words) + [LsSpan(w)]
    decreases |words|
  {
    if words != [] {
      assert (words + [w])[1..] == words[1..] + [w];
      SpansSnoc(words[1..], w);
    }
  }

  /** What `formatLsReply(reply)` returns. */
  function FormatLs(reply: string): string {
    Rendered(Join(Spans(Split(reply, " ")), " "))
  }

  /** A space-joined list of names without spaces is formatted name by name. */
  lemma {:induction false} FormatLsOfNames(names: seq<string>)
    requires |names| > 0 && forall k :: 0 <= k < |names| ==> ' ' !in names[k]
    ensures FormatLs(Join(names, " ")) == Join(Spans(names), " ")
  {
    assert [' '] == " ";
    SplitJoin(names, ' ');
  }

  /** `formatLsReply`: one coloured span per space-separated word, joined by spaces. */
  method FormatLsReply(reply: string) returns (r: string)
    ensures r == FormatLs(reply)
  {
    var words := Split(reply, " ");
    var formattedReply: seq<string> := [];
    var i := 0;
    while i < |words|
      invariant 0 <= i <= |words|
      invariant formattedReply == Spans(words[..i])
    {
      var span: string;
      if !IsFile(words[i]) {
        span := "<span style=\"color: " + FolderColor + ";\">" + words[i] + "</span>";
      } else {
        span := "<span style=\"color:" + FileColor + ";\">" + words[i] + "</span>";
      }
      assert span == LsSpan(words[i]);
      assert words[..i + 1] == words[..i] + [words[i]];
      SpansSnoc(words[..i], words[i]);
      formattedReply := formattedReply + [span];
      i := i + 1;
    }
    assert words[..i] == words;
    r := Rendered(Join(formattedReply, " "));
  }

  /** The text `ls` formats: the current root entry's files, or every root name. */
  function LsText(currentDir: string, dirs: Listing): string {
    var name := GetCurrentDirName(currentDir);
    if name != "" && Has(dirs, name) then MapDirsToString(FindRec(name, dirs))
    else Join(Keys(dirs), " ")
  }

  /**
   * `ls` by the last path segment: in a directory named at the root it lists that
   * directory's file-like words; at a non-empty root file nothing; at an empty root
   * file (a falsy hit) whatever the search below the first root sub-directory finds;
   * otherwise every root name.
   */
  lemma {:induction false} LsLists(currentDir: string, dirs: Listing)
    ensures var name := AfterLast(currentDir, '/');
      LsText(currentDir, dirs) ==
        if name == "" then Join(Keys(dirs), " ")
        else match Get<Entry>(dirs, name)
          case Some(Dir(c)) => Join(EntryWords(c), " ")
          case Some(File(s)) => if s != "" then "" else MapDirsToString(SearchChain(DescentChain(dirs)[1..], name))
          case None => Join(Keys(dirs), " ")
  {
    var name := AfterLast(currentDir, '/');
    CurrentDirNameIs(currentDir);
    if name != "" {
      match Get<Entry>(dirs, name) {
        case Some(Dir(c)) =>
        case Some(File(s)) =>
          if s != "" {
            TextListsNothing(s);
          } else {
            FindRecSearchesDescent(name, dirs);
            var chain := DescentChain(dirs);
            assert DirectHit(chain[0], name).NoMatch?;
            assert SearchChain(chain, name) == SearchChain(chain[1..], name);
          }
        case None =>
      }
    }
  }

  // ---------------------------------------------------------------------------
  // Handlers, specified on values

  /** What the host supplies: the `top` reply and the two deletion calls the store lacks. */
  datatype Host = Host(topReply: string, deleteFile: string -> bool, deleteFolder: string -> bool)

  /** The session, the tree and the submitted prompt after a handler. */
  datatype Outcome = Outcome(session: Session, dirs: Listing, prompt: PromptInstance)

  function HelpText(): string {
    Join(VerbNamesOf(AllVerbs), " | ")
  }

  function VerbNamesOf(vs: seq<Verb>): (r: seq<string>)
    ensures |r| == |vs| && forall i :: 0 <= i < |vs| ==> r[i] == VerbName(vs[i])
  {
    seq(|vs|, i requires 0 <= i < |vs| => VerbName(vs[i]))
  }

  /** The `help` reply names every verb. */
  lemma {:induction false} HelpNamesEveryVerb(v: Verb)
    ensures Includes(HelpText(), VerbName(v))
  {
    AllVerbsComplete(v);
    var k :| 0 <= k < |AllVerbs| && AllVerbs[k] == v;
    JoinHasPart(VerbNamesOf(AllVerbs), " | ", k);
  }

  function HelpReply(): string {
    Rendered(HelpIntro + HelpText() + "</code>")
  }

  /** `cat`'s reply: the found value's `toString()`; a directory map prints as `[object Map]`. */
  function FoundToString(f: Found): string {
    match f
    case Text(s) => s
    case Folder(_) => "[object Map]"
    case NoMatch => ""
  }

  /** JavaScript truthiness of a search result: `[]` and a `Map` are truthy, only `""` is not. */
  predicate Truthy(f: Found) {
    match f
    case Text(s) => s != ""
    case Folder(_) => true
    case NoMatch => true
  }

  /** Every search result is truthy, so `cat`'s `No such file` branch is never taken. */
  lemma {:induction false} FindRecTruthy(name: string, m: Listing)
    ensures Truthy(FindRec(name, m))
  {
  }

  function CatReply(dirs: Listing, command: string): string {
    var file := Argument(command);
    if file == "" then CatUsage
    else if !IsFile(file) then "Not a file!"
    else if Truthy(FindRec(file, dirs)) then FoundToString(FindRec(file, dirs))
    else "No such file: " + file
  }

  /** `split('-r')[1]`, trimmed: the text `rm -r` takes as the folder name. */
  function RmFolderName(arg: string): string
    requires Includes(arg, "-r")
  {
    SplitSingle(arg, "-r");
    Trim(Split(arg, "-r")[1])
  }

  /** The folder name is the text between the first `-r` and the next one, trimmed. */
  lemma {:induction false} RmFolderNameIs(arg: string)
    requires Includes(arg, "-r")
    ensures RmFolderName(arg) == Trim(Before(After(arg, "-r"), "-r"))
  {
    SplitHeadTail(arg, "-r");
    SplitHeadTail(After(arg, "-r"), "-r");
  }

  function RmReply(host: Host, command: string): string {
    var removeArgument := CommandSuffixAll(command);
    if removeArgument == "" then RmUsage
    else if Includes(removeArgument, "-r") then
      var folderName := RmFolderName(removeArgument);
      if IsFile(folderName) then
        RmFileDetected + command + RmFileDetectedEnd
      else if host.deleteFolder(folderName) then "Folder " + folderName + " deleted successfully!"
      else "No such folder " + folderName + " found!"
    else if IsFile(removeArgument) then
      if host.deleteFile(removeArgument) then "File " + removeArgument + " successfully deleted!"
      else "No such file " + removeArgument + " found!"
    else RmFolderDetected + command + RmFolderDetectedEnd
  }

  /**
   * The replies of `rm`: the usage text without an argument; with `-r` anywhere, the
   * folder name is the text between the first `-r` and the next, trimmed, and a
   * file-looking one is refused; without `-r` a name that does not look like a file
   * is refused; the deletions decide the rest.
   */
  lemma {:induction false} RmReplies(host: Host, command: string)
    ensures var arg := CommandSuffixAll(command); var reply := RmReply(host, command);
      (arg == "" ==> reply == RmUsage) &&
      (arg != "" && Includes(arg, "-r") ==>
        var folderName := Trim(Before(After(arg, "-r"), "-r"));
        reply == (if IsFile(folderName) then RmFileDetected + command + RmFileDetectedEnd
                  else if host.deleteFolder(folderName) then "Folder " + folderName + " deleted successfully!"
                  else "No such folder " + folderName + " found!")) &&
      (arg != "" && !Includes(arg, "-r") ==>
        reply == (if !IsFile(arg) then RmFolderDetected + command + RmFolderDetectedEnd
                  else if host.deleteFile(arg) then "File " + arg + " successfully deleted!"
                  else "No such file " + arg + " found!"))
  {
    var arg := CommandSuffixAll(command);
    if arg != "" && Includes(arg, "-r") {
      RmFolderNameIs(arg);
    }
  }

  /**
   * `rm` consults a deletion only on its two delete paths: with no argument, a
   * file-looking name after `-r`, or a folder-looking name without `-r`, the reply is
   * the same whatever the host would delete.
   */
  lemma {:induction false} RmDeletesOnlyOnDeletePaths(h1: Host, h2: Host, command: string)
    requires var arg := CommandSuffixAll(command);
      arg == "" ||
      (Includes(arg, "-r") && IsFile(RmFolderName(arg))) ||
      (!Includes(arg, "-r") && !IsFile(arg))
    ensures RmReply(h1, command) == RmReply(h2, command)
  {
  }

  /**
   * `-r` is looked for anywhere in the argument, so `rm` refuses a file whose name holds
   * `-r` followed by something that itself looks like a file name (`rm my-report.txt`).
   */
  lemma {:induction false} RmHyphenatedFile(host: Host, stem: string, tail: string)
    requires stem != [] && !IsWhitespace(stem[0]) && !Includes(stem, "-r")
    requires IsFile(tail) && Trim(tail) == tail && !Includes(tail, "-r")
    ensures var command := "rm " + (stem + "-r" + tail);
      RmReply(host, command) ==
        RmFileDetected + command + RmFileDetectedEnd
  {
    var arg := stem + "-r" + tail;
    NoDotNotFile("");
    RmArgumentClean(stem, tail);
    RmArgumentOf(arg);
    RmFolderNameAfterDash(stem, tail);
  }

  lemma {:induction false} RmArgumentClean(stem: string, tail: string)
    requires stem != [] && !IsWhitespace(stem[0]) && tail != [] && Trim(tail) == tail
    ensures Trim(stem + "-r" + tail) == stem + "-r" + tail
  {
    var arg := stem + "-r" + tail;
    assert !IsWhitespace(tail[|tail| - 1]);
    assert arg[|arg| - 1] == tail[|tail| - 1];
    TrimClean(arg);
  }

  /** What follows `rm `, when it has no surrounding whitespace, is the whole argument. */
  lemma {:induction false} RmArgumentOf(arg: string)
    requires Trim(arg) == arg
    ensures CommandSuffixAll("rm " + arg) == arg
  {
    RmAfterSpace(arg);
    CommandSuffixAllClean("rm " + arg);
  }

  lemma {:induction false} RmAfterSpace(arg: string)
    ensures After("rm " + arg, " ") == arg
  {
    assert "rm " + arg == "rm" + [' '] + arg;
    assert ' ' !in "rm";
    IndexOfAfterFree("rm", ' ', arg);
  }

  /** When the text after the first space has no surrounding whitespace, `commandSuffixAll` is that text. */
  lemma {:induction false} CommandSuffixAllClean(command: string)
    requires Trim(After(command, " ")) == After(command, " ")
    ensures CommandSuffixAll(command) == After(command, " ")
  {
    CommandSuffixAllIs(command);
  }

  /** With a single `-r` in the argument, the folder name is the text after it, trimmed. */
  lemma {:induction false} RmFolderNameAfterDash(stem: string, tail: string)
    requires !Includes(stem, "-r") && !Includes(tail, "-r") && Trim(tail) == tail
    ensures Includes(stem + "-r" + tail, "-r") && RmFolderName(stem + "-r" + tail) == tail
  {
    var arg := stem + "-r" + tail;
    RmAfterDash(stem, tail);
    RmFolderNameIs(arg);
  }

  lemma {:induction false} RmAfterDash(stem: string, tail: string)
    requires !Includes(stem, "-r")
    ensures Includes(stem + "-r" + tail, "-r") && After(stem + "-r" + tail, "-r") == tail
  {
    IndexOfAfterAbsent(stem, "-r", tail);
    assert (stem + "-r" + tail)[|stem| + 2..] == tail;
  }

  /** Only the reply of the prompt may differ. */
  predicate OnlyReply(p: PromptInstance, q: PromptInstance) {
    q == p.(reply := q.reply)
  }

  function ClearStep(s: Session, dirs: Listing, p: PromptInstance): Outcome {
    Outcome(s.(instances := []), dirs, p)
  }

  function HelpStep(s: Session, dirs: Listing, p: PromptInstance): (r: Outcome)
    ensures r.session == s && r.dirs == dirs && OnlyReply(p, r.prompt)
  {
    Outcome(s, dirs, p.(reply := HelpReply()))
  }

  function LsStep(s: Session, dirs: Listing, p: PromptInstance): (r: Outcome)
    ensures r.session == s && r.dirs == dirs && OnlyReply(p, r.prompt)
  {
    Outcome(s, dirs, p.(reply := FormatLs(LsText(s.currentDir, dirs))))
  }

  function CdStep(s: Session, dirs: Listing, p: PromptInstance): (r: Outcome)
    ensures r.session == s.(currentDir := r.session.currentDir) && r.dirs == dirs && OnlyReply(p, r.prompt)
  {
    var changeDir := Argument(p.command);
    if changeDir == "" then Outcome(s.(currentDir := RootDir), dirs, p)
    else if !Has(dirs, changeDir) then Outcome(s, dirs, p.(reply := NoSuchDirectory))
    else Outcome(s.(currentDir := s.currentDir + "/" + changeDir), dirs, p)
  }

  function CatStep(s: Session, dirs: Listing, p: PromptInstance): (r: Outcome)
    ensures r.session == s && r.dirs == dirs && OnlyReply(p, r.prompt)
  {
    Outcome(s, dirs, p.(reply := CatReply(dirs, p.command)))
  }

  function TopStep(s: Session, dirs: Listing, host: Host, p: PromptInstance): (r: Outcome)
    ensures r.session == s && r.dirs == dirs && OnlyReply(p, r.prompt)
  {
    Outcome(s, dirs, p.(reply := host.topReply))
  }

  function PwdStep(s: Session, dirs: Listing, p: PromptInstance): (r: Outcome)
    ensures r.session == s && r.dirs == dirs && OnlyReply(p, r.prompt)
  {
    Outcome(s, dirs, p.(reply := s.currentDir))
  }

  function HistoryStep(s: Session, dirs: Listing, p: PromptInstance): (r: Outcome)
    ensures r.session == s && r.dirs == dirs && OnlyReply(p, r.prompt)
  {
    Outcome(s, dirs, p.(reply := Rendered(Join(s.history, "<br>"))))
  }

  /**
   * `touch`: without a name, the usage reply and no change; a file-looking name
   * becomes an empty file, any other name an empty directory, in the directory the
   * current root entry resolves to.
   */
  function TouchStep(s: Session, dirs: Listing, p: PromptInstance): (r: Outcome)
    ensures r.session == s && OnlyReply(p, r.prompt)
    ensures var name := Argument(p.command); var path := [GetCurrentDirName(s.currentDir)];
      (name == "" ==> r.dirs == dirs && r.prompt.reply == TouchUsage) &&
      (name != "" ==>
        r.prompt.reply == p.reply && r.dirs == WithEntry(dirs, path, name, if IsFile(name) then File("") else Dir([])))
  {
    var fileName := Argument(p.command);
    var path := [GetCurrentDirName(s.currentDir)];
    if fileName == "" then Outcome(s, dirs, p.(reply := TouchUsage))
    else if IsFile(fileName) then Outcome(s, WithEntry(dirs, path, fileName, File("")), p)
    else Outcome(s, WithEntry(dirs, path, fileName, Dir([])), p)
  }

  /**
   * `vim`: without a name, the usage reply and no change; with one, the editor opens
   * on that name with what `getFile` finds for it in the current root entry.
   */
  function VimStep(s: Session, dirs: Listing, p: PromptInstance): (r: Outcome)
    ensures r.session == s.(vimVisible := r.session.vimVisible, vimFilename := r.session.vimFilename, vimContent := r.session.vimContent)
    ensures r.dirs == dirs && OnlyReply(p, r.prompt)
    ensures var name := Argument(p.command);
      (name == "" ==> r.session == s && r.prompt.reply == VimUsage) &&
      (name != "" ==>
        r.prompt == p && r.session.vimVisible && r.session.vimFilename == name &&
        r.session.vimContent == FileAt(dirs, name, [GetCurrentDirName(s.currentDir)]))
  {
    var fileName := Argument(p.command);
    if fileName == "" then Outcome(s, dirs, p.(reply := VimUsage))
    else
      var content := FileAt(dirs, fileName, [GetCurrentDirName(s.currentDir)]);
      Outcome(s.(vimVisible := true, vimFilename := fileName, vimContent := content), dirs, p)
  }

  function RemoveStep(s: Session, dirs: Listing, host: Host, p: PromptInstance): (r: Outcome)
    ensures r.session == s && r.dirs == dirs && OnlyReply(p, r.prompt)
  {
    Outcome(s, dirs, p.(reply := RmReply(host, p.command)))
  }

  function DefaultStep(s: Session, dirs: Listing, p: PromptInstance): (r: Outcome)
    ensures r.session == s && r.dirs == dirs && OnlyReply(p, r.prompt)
  {
    if p.command == "" then Outcome(s, dirs, p)
    else if !IsInputCommandAllowed(p.command) then
      Outcome(s, dirs, p.(reply := Rendered("<code>" + p.command + "</code>" + BadCommandErrorMessage)))
    else Outcome(s, dirs, p)
  }

  /** The `switch` of `handleCommand` on the verb of an already trimmed and recorded command. */
  function Dispatch(verb: Option<Verb>, s: Session, dirs: Listing, host: Host, p: PromptInstance): Outcome {
    match verb
    case Some(Clear) => ClearStep(s, dirs, p)
    case Some(Help) => HelpStep(s, dirs, p)
    case Some(Ls) => LsStep(s, dirs, p)
    case Some(Cd) => CdStep(s, dirs, p)
    case Some(Cat) => CatStep(s, dirs, p)
    case Some(Top) => TopStep(s, dirs, host, p)
    case Some(Pwd) => PwdStep(s, dirs, p)
    case Some(History) => HistoryStep(s, dirs, p)
    case Some(Touch) => TouchStep(s, dirs, p)
    case Some(Vim) => VimStep(s, dirs, p)
    case Some(Remove) => RemoveStep(s, dirs, host, p)
    case Some(ClearLocalStorage) => Outcome(s, dirs, p)
    case None => DefaultStep(s, dirs, p)
  }

  /** `handleCommand(prompt)`: an empty command does nothing; any other is trimmed, recorded, dispatched. */
  function CommandStep(s: Session, dirs: Listing, host: Host, p: PromptInstance): Outcome {
    if p.command == "" then Outcome(s, dirs, p)
    else
      var command := Trim(p.command);
      Dispatch(CommandPrefix(command), s.(history := s.history + [command]), dirs, host, p.(command := command))
  }

  // ---------------------------------------------------------------------------
  // Properties of a whole command

  /**
   * What each verb may change: only `clear` empties the prompt list, only `cd` moves
   * the current directory, only `touch` changes the tree and only `vim` opens the
   * editor; the history, the mode and the id counter are never touched, and of the
   * prompt only the reply can differ.
   */
  lemma {:induction false} DispatchFrame(verb: Option<Verb>, s: Session, dirs: Listing, host: Host, p: PromptInstance)
    ensures var o := Dispatch(verb, s, dirs, host, p);
      o.session.history == s.history && o.session.nextId == s.nextId && o.session.terminalMode == s.terminalMode &&
      o.session.instances == (if verb == Some(Clear) then [] else s.instances) &&
      (o.session.currentDir != s.currentDir ==> verb == Some(Cd)) &&
      (o.session.vimVisible != s.vimVisible ==> verb == Some(Vim))
  {
    DispatchCases(verb, s, dirs, host, p);
  }

  /** Of the tree and the prompt, only `touch` changes the tree and every verb at most sets the reply. */
  lemma {:induction false} DispatchKeepsPrompt(verb: Option<Verb>, s: Session, dirs: Listing, host: Host, p: PromptInstance)
    ensures var o := Dispatch(verb, s, dirs, host, p);
      (o.dirs != dirs ==> verb == Some(Touch)) && OnlyReply(p, o.prompt)
  {
    DispatchCases(verb, s, dirs, host, p);
  }

  /** The switch, case by case, with the effect each handler is allowed. */
  lemma {:induction false} DispatchCases(verb: Option<Verb>, s: Session, dirs: Listing, host: Host, p: PromptInstance)
    ensures var o := Dispatch(verb, s, dirs, host, p);
      match verb
      case Some(Clear) => o == Outcome(s.(instances := []), dirs, p)
      case Some(Cd) => o.session == s.(currentDir := o.session.currentDir) && o.dirs == dirs && OnlyReply(p, o.prompt)
      case Some(Touch) => o.session == s && OnlyReply(p, o.prompt)
      case Some(Vim) =>
        o.session == s.(vimVisible := o.session.vimVisible, vimFilename := o.session.vimFilename, vimContent := o.session.vimContent) &&
        o.dirs == dirs && OnlyReply(p, o.prompt)
      case _ => o.session == s && o.dirs == dirs && OnlyReply(p, o.prompt)
  {
    match verb
    case Some(Clear) =>
    case Some(Help) =>
    case Some(Ls) =>
    case Some(Cd) =>
    case Some(Cat) =>
    case Some(Top) =>
    case Some(Pwd) =>
    case Some(History) =>
    case Some(Touch) =>
    case Some(Vim) =>
    case Some(Remove) =>
    case Some(ClearLocalStorage) =>
    case None =>
  }

  /**
   * History: an empty command records nothing; any other records its trimmed text
   * exactly once, whatever the verb. Only `clear` touches the prompt list, only `cd`
   * the directory, and the id counter never moves.
   */
  lemma {:induction false} CommandStepSession(s: Session, dirs: Listing, host: Host, p: PromptInstance)
    ensures var o := CommandStep(s, dirs, host, p);
      var c := Trim(p.command);
      o.session.history == (if p.command == "" then s.history else s.history + [c]) &&
      o.session.instances == (if p.command != "" && CommandPrefix(c) == Some(Clear) then [] else s.instances) &&
      (o.session.currentDir != s.currentDir ==> p.command != "" && CommandPrefix(c) == Some(Cd)) &&
      o.session.nextId == s.nextId && o.session.terminalMode == s.terminalMode &&
      o.prompt.id == p.id && o.prompt.currentDir == p.currentDir && o.prompt.enabled == p.enabled
  {
    if p.command != "" {
      var c := Trim(p.command);
      var v := CommandPrefix(c);
      DispatchFrame(v, s.(history := s.history + [c]), dirs, host, p.(command := c));
      DispatchKeepsPrompt(v, s.(history := s.history + [c]), dirs, host, p.(command := c));
    }
  }

  /**
   * Whitespace-only input is recorded as `""` in the history, and nothing else
   * happens: no reply, no change to the tree or the session.
   */
  lemma {:induction false} WhitespaceOnlyRecordsEmpty(s: Session, dirs: Listing, host: Host, p: PromptInstance)
    requires p.command != "" && AllWhitespace(p.command)
    ensures CommandStep(s, dirs, host, p) == Outcome(s.(history := s.history + [""]), dirs, p.(command := ""))
  {
    assert Trim(p.command) == "";
    assert IndexOf("", " ") == None;
    TrimClean("");
  }

  /** A line whose first word is no verb gets the bad-command reply and changes nothing else. */
  lemma {:induction false} UnknownVerbReply(s: Session, dirs: Listing, host: Host, p: PromptInstance)
    requires Trim(p.command) != "" && CommandPrefix(Trim(p.command)).None?
    ensures var c := Trim(p.command);
      CommandStep(s, dirs, host, p) ==
        Outcome(s.(history := s.history + [c]), dirs,
                p.(command := c, reply := Rendered("<code>" + c + "</code>" + BadCommandErrorMessage)))
  {
  }

  /**
   * `cd name` looks `name` up among the root's entries only, whatever the current
   * directory: a root name is appended to the path, any other name is refused, and a
   * missing name goes back to `~`.
   */
  lemma {:induction false} CdChecksRootOnly(s: Session, dirs: Listing, host: Host, p: PromptInstance)
    requires CommandPrefix(Trim(p.command)) == Some(Cd) && p.command != ""
    ensures var o := CommandStep(s, dirs, host, p);
      var arg := Argument(Trim(p.command));
      o.dirs == dirs &&
      (arg == "" ==> o.session.currentDir == RootDir && o.prompt.reply == p.reply) &&
      (arg != "" && Has(dirs, arg) ==> o.session.currentDir == s.currentDir + "/" + arg && o.prompt.reply == p.reply) &&
      (arg != "" && !Has(dirs, arg) ==> o.session.currentDir == s.currentDir && o.prompt.reply == NoSuchDirectory)
  {
    var c := Trim(p.command);
    DispatchCd(CommandPrefix(c), s.(history := s.history + [c]), dirs, host, p.(command := c));
  }

  lemma {:induction false} DispatchCd(verb: Option<Verb>, s: Session, dirs: Listing, host: Host, p: PromptInstance)
    requires verb == Some(Cd)
    ensures Dispatch(verb, s, dirs, host, p) == CdStep(s, dirs, p)
  {
  }

  lemma {:induction false} DispatchHistory(verb: Option<Verb>, s: Session, dirs: Listing, host: Host, p: PromptInstance)
    requires verb == Some(History)
    ensures Dispatch(verb, s, dirs, host, p) == HistoryStep(s, dirs, p)
  {
  }

  /**
   * `cat name`: no name and a name that does not look like a file are refused; a
   * file-looking name is searched along the first-sub-directory chain.
   */
  lemma {:induction false} CatReplies(dirs: Listing, command: string)
    ensures var file := Argument(command);
      (file == "" ==> CatReply(dirs, command) == CatUsage) &&
      (file != "" && !IsFile(file) ==> CatReply(dirs, command) == "Not a file!") &&
      (file != "" && IsFile(file) ==> CatReply(dirs, command) == FoundToString(SearchChain(DescentChain(dirs), file)))
  {
    FindRecSearchesDescent(Argument(command), dirs);
  }

  /** When no directory on the chain holds a non-empty entry of that name, `cat` shows nothing. */
  lemma {:induction false} CatNothingFound(dirs: Listing, command: string)
    requires IsFile(Argument(command))
    requires forall k :: 0 <= k < |DescentChain(dirs)| ==> DirectHit(DescentChain(dirs)[k], Argument(command)).NoMatch?
    ensures CatReply(dirs, command) == ""
  {
    NoDotNotFile([]);
    CatReplies(dirs, command);
    SearchChainNoMatch(DescentChain(dirs), Argument(command));
  }

  /** A file at the root with non-empty text is what `cat` shows. */
  lemma {:induction false} CatShowsRootFile(dirs: Listing, command: string, text: string)
    requires IsFile(Argument(command)) && Get<Entry>(dirs, Argument(command)) == Some(File(text)) && text != ""
    ensures CatReply(dirs, command) == text
  {
  }

  /** `touch` then `vim` of the same file, in the same directory, opens it empty. */
  lemma {:induction false} TouchThenVim(s: Session, dirs: Listing, p: PromptInstance)
    requires IsFile(Argument(p.command))
    ensures var t := TouchStep(s, dirs, p);
      var v := VimStep(t.session, t.dirs, p);
      v.session.vimVisible && v.session.vimFilename == Argument(p.command) && v.session.vimContent == ""
  {
    AddFileThenGetFile(dirs, Argument(p.command), "", [GetCurrentDirName(s.currentDir)]);
  }

  /** `touch` on a folder-looking name makes it an empty directory where the current path resolves. */
  lemma {:induction false} TouchMakesFolder(s: Session, dirs: Listing, p: PromptInstance)
    requires Argument(p.command) != "" && !IsFile(Argument(p.command))
    ensures var path := [GetCurrentDirName(s.currentDir)];
      var r := Resolve(dirs, path);
      EntryAt(TouchStep(s, dirs, p).dirs, r + [Argument(p.command)]) == Some(Dir([]))
  {
    var path := [GetCurrentDirName(s.currentDir)];
    AddFolderEffect(dirs, Argument(p.command), path, path);
  }

  /** `history` shows every recorded command, this one last, separated by `<br>`. */
  lemma {:induction false} HistoryShowsThisCommandLast(s: Session, dirs: Listing, host: Host, p: PromptInstance)
    requires p.command != "" && CommandPrefix(Trim(p.command)) == Some(History)
    ensures CommandStep(s, dirs, host, p).prompt.reply ==
      if s.history == [] then Trim(p.command) else Join(s.history, "<br>") + "<br>" + Trim(p.command)
  {
    var c := Trim(p.command);
    DispatchHistory(CommandPrefix(c), s.(history := s.history + [c]), dirs, host, p.(command := c));
    JoinSnoc(s.history, "<br>", c);
  }

  // ---------------------------------------------------------------------------
  // Handlers on the stores

  method HandleClearCommand(store: CommandPromptStore, files: FilesStore, p: PromptInstance) returns (q: PromptInstance)
    modifies store
    ensures Outcome(store.State(), files.dirs, q) == ClearStep(old(store.State()), files.dirs, p)
  {
    store.instances := [];
    q := p;
  }

  method HandleHelpCommand(store: CommandPromptStore, files: FilesStore, p: PromptInstance) returns (q: PromptInstance)
    ensures Outcome(store.State(), files.dirs, q) == HelpStep(store.State(), files.dirs, p)
  {
    q := p.(reply := HelpReply());
  }

  method HandleLsCommand(store: CommandPromptStore, files: FilesStore, p: PromptInstance) returns (q: PromptInstance)
    ensures Outcome(store.State(), files.dirs, q) == LsStep(store.State(), files.dirs, p)
  {
    var currentDirName := GetCurrentDirName(store.currentDir);
    var reply := "";
    if currentDirName != "" && Has(files.dirs, currentDirName) {
      reply := MapDirsToString(FindRec(currentDirName, files.dirs));
    } else {
      reply := Join(Keys(files.dirs), " ");
    }
    var formatted := FormatLsReply(reply);
    q := p.(reply := formatted);
  }

  method HandleCdCommand(store: CommandPromptStore, files: FilesStore, p: PromptInstance) returns (q: PromptInstance)
    modifies store
    ensures Outcome(store.State(), files.dirs, q) == CdStep(old(store.State()), files.dirs, p)
  {
    q := p;
    var changeDir := Argument(p.command);
    if changeDir == "" {
      store.currentDir := RootDir;
    } else if !Has(files.dirs, changeDir) {
      q := q.(reply := NoSuchDirectory);
    } else {
      store.currentDir := store.currentDir + "/" + changeDir;
    }
  }

  method HandleCatCommand(store: CommandPromptStore, files: FilesStore, p: PromptInstance) returns (q: PromptInstance)
    ensures Outcome(store.State(), files.dirs, q) == CatStep(store.State(), files.dirs, p)
  {
    var file := Argument(p.command);
    if file == "" {
      q := p.(reply := CatUsage);
    } else if !IsFile(file) {
      q := p.(reply := "Not a file!");
    } else if Truthy(FindRec(file, files.dirs)) {
      var fileContent := FindRec(file, files.dirs);
      q := p.(reply := FoundToString(fileContent));
    } else {
      q := p.(reply := "No such file: " + file);
    }
  }

  method HandleTopCommand(store: CommandPromptStore, files: FilesStore, host: Host, p: PromptInstance) returns (q: PromptInstance)
    ensures Outcome(store.State(), files.dirs, q) == TopStep(store.State(), files.dirs, host, p)
  {
    q := p.(reply := host.topReply);
  }

  method HandlePwdCommand(store: CommandPromptStore, files: FilesStore, p: PromptInstance) returns (q: PromptInstance)
    ensures Outcome(store.State(), files.dirs, q) == PwdStep(store.State(), files.dirs, p)
  {
    q := p.(reply := store.currentDir);
  }

  method HandleHistoryCommand(store: CommandPromptStore, files: FilesStore, p: PromptInstance) returns (q: PromptInstance)
    ensures Outcome(store.State(), files.dirs, q) == HistoryStep(store.State(), files.dirs, p)
  {
    q := p.(reply := Rendered(Join(store.history, "<br>")));
  }

  method HandleTouchCommand(store: CommandPromptStore, files: FilesStore, p: PromptInstance) returns (q: PromptInstance)
    modifies files
    ensures Outcome(store.State(), files.dirs, q) == TouchStep(store.State(), old(files.dirs), p)
  {
    q := p;
    var fileName := Argument(p.command);
    if fileName == "" {
      q := q.(reply := TouchUsage);
      return;
    }
    var path := [GetCurrentDirName(store.currentDir)];
    if IsFile(fileName) {
      files.AddFile(fileName, "", path);
    } else {
      files.AddFolder(fileName, path);
    }
  }

  method HandleVimCommand(store: CommandPromptStore, files: FilesStore, p: PromptInstance) returns (q: PromptInstance)
    modifies store
    ensures Outcome(store.State(), files.dirs, q) == VimStep(old(store.State()), files.dirs, p)
  {
    q := p;
    var fileName := Argument(p.command);
    if fileName == "" {
      q := q.(reply := VimUsage);
      return;
    }
    store.vimVisible := true;
    store.vimFilename := fileName;
    var content := files.GetFile(fileName, [GetCurrentDirName(store.currentDir)]);
    store.vimContent := content;
  }

  method HandleRemoveCommand(store: CommandPromptStore, files: FilesStore, host: Host, p: PromptInstance) returns (q: PromptInstance)
    ensures Outcome(store.State(), files.dirs, q) == RemoveStep(store.State(), files.dirs, host, p)
  {
    ghost var reply := RmReply(host, p.command);
    var removeArgument := CommandSuffixAll(p.command);
    if removeArgument == "" {
      q := p.(reply := RmUsage);
    } else if Includes(removeArgument, "-r") {
      var folderName := RmFolderName(removeArgument);
      if IsFile(folderName) {
        q := p.(reply := RmFileDetected + p.command + RmFileDetectedEnd);
      } else if host.deleteFolder(folderName) {
        q := p.(reply := "Folder " + folderName + " deleted successfully!");
      } else {
        q := p.(reply := "No such folder " + folderName + " found!");
      }
    } else {
      var fileName := removeArgument;
      if IsFile(fileName) {
        if host.deleteFile(fileName) {
          q := p.(reply := "File " + fileName + " successfully deleted!");
        } else {
          q := p.(reply := "No such file " + fileName + " found!");
        }
      } else {
        q := p.(reply := RmFolderDetected + p.command + RmFolderDetectedEnd);
      }
    }
    assert q == p.(reply := reply);
  }

  method HandleDefaultCheck(store: CommandPromptStore, files: FilesStore, p: PromptInstance) returns (q: PromptInstance)
    ensures Outcome(store.State(), files.dirs, q) == DefaultStep(store.State(), files.dirs, p)
  {
    q := p;
    if p.command == "" {
      return;
    }
    if !IsInputCommandAllowed(p.command) {
      q := q.(reply := Rendered("<code>" + p.command + "</code>" + BadCommandErrorMessage));
    }
  }

  /**
   * `handleCommand(prompt)`: the submitted prompt is passed as a value and returned
   * with its trimmed command and its reply.
   */
  method HandleCommand(store: CommandPromptStore, files: FilesStore, host: Host, promptInstance: PromptInstance)
    returns (q: PromptInstance)
    modifies store, files
    ensures Outcome(store.State(), files.dirs, q) == CommandStep(old(store.State()), old(files.dirs), host, promptInstance)
  {
    q := promptInstance;
    if q.command == "" {
      return;
    }
    var command := Trim(q.command);
    ghost var recorded := old(store.State()).(history := old(store.State()).history + [command]);
    q := q.(command := command);
    store.history := store.history + [command];
    assert store.State() == recorded;
    q := HandleSwitch(store, files, host, CommandPrefix(command), q);
    CommandStepDispatches(old(store.State()), old(files.dirs), host, promptInstance);
  }

  /**
   * A non-empty command is trimmed and recorded before the switch, and the switch
   * runs on the verb named by the trimmed text before the first space of the
   * trimmed command.
   */
  lemma {:induction false} CommandStepDispatches(s: Session, dirs: Listing, host: Host, p: PromptInstance)
    requires p.command != ""
    ensures var c := Trim(p.command);
      CommandStep(s, dirs, host, p) == Dispatch(CommandPrefix(c), s.(history := s.history + [c]), dirs, host, p.(command := c))
    ensures var c := Trim(p.command);
      CommandStep(s, dirs, host, p) == Dispatch(VerbOf(Trim(Before(c, " "))), s.(history := s.history + [c]), dirs, host, p.(command := c))
  {
    CommandPrefixIs(Trim(p.command));
  }

  /** The `switch` of `handleCommand`: runs the handler of the verb on the recorded prompt. */
  method HandleSwitch(store: CommandPromptStore, files: FilesStore, host: Host, command: Option<Verb>, p: PromptInstance)
    returns (q: PromptInstance)
    modifies store, files
    ensures Outcome(store.State(), files.dirs, q) == Dispatch(command, old(store.State()), old(files.dirs), host, p)
  {
    q := p;
    match command {
      case Some(Clear) => q := HandleClearCommand(store, files, q);
      case Some(Help) => q := HandleHelpCommand(store, files, q);
      case Some(Ls) => q := HandleLsCommand(store, files, q);
      case Some(Cd) => q := HandleCdCommand(store, files, q);
      case Some(Cat) => q := HandleCatCommand(store, files, q);
      case Some(Top) => q := HandleTopCommand(store, files, host, q);
      case Some(Pwd) => q := HandlePwdCommand(store, files, q);
      case Some(History) => q := HandleHistoryCommand(store, files, q);
      case Some(Touch) => q := HandleTouchCommand(store, files, q);
      case Some(Vim) => q := HandleVimCommand(store, files, q);
      case Some(Remove) => q := HandleRemoveCommand(store, files, host, q);
      case Some(ClearLocalStorage) =>
      case None => q := HandleDefaultCheck(store, files, q);
    }
  }
}
