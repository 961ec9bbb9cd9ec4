/** The four actions of index.js (`init`, `setup`, `push`, `test`) and their
    helpers (`awsConfig`, `copyTemplate`, `exitOnError`) as functions from the
    state of the working directory to the state after the action.

    The working directory is a map from relative paths to file contents plus a
    set of directories; the deployment archive aws/lambda.zip is kept as the
    map of files it holds. External processes (zip, npm, aws) are not run:
    each one is appended to the log of issued commands and its result is an
    input. Math.random and the clock are inputs too. */
module Pipeline {
  import opened Options
  import Text
  import Uuid
  import Render
  import opened Commands

  type Path = string

  datatype World = World(
    files: map<Path, string>,
    dirs: set<Path>,
    archive: Option<map<Path, string>>,
    commands: seq<Command>,
    console: seq<Message>)

  /** What a child process did: exited normally with its output, or not. */
  datatype Exec = Succeeded(stdout: string) | Failed(message: string)

  /** JSON.parse of aws/update-function-code.json followed by `.FunctionName`;
      an absent, null or otherwise falsy name is the empty string. */
  datatype Descriptor = Unparsable | Parsed(functionName: string)

  /** A step of the try block of `test` that can throw: its value, or the
      message of the exception it raised. */
  datatype Decoded = Decoded(text: string) | Threw(message: string)

  /** What `aws lambda invoke` did: exited abnormally with the message of the
      execSync exception, or answered. An answer carries the decoded LogResult,
      or the message of the exception that JSON.parse (a response that is not
      JSON) or the base64 decoding (a response without LogResult) raised, and
      the output file the command wrote, if any. */
  datatype InvokeReply = Rejected(message: string) | Replied(log: Decoded, written: Option<string>)

  datatype Failure =
    | MissingRole
    | TemplateMissing(template: string)
    | UnboundVariable(template: string, key: string)
    | WriteFailed(path: Path)
    | CommandFailed(command: Command)
    | DescriptorUnreadable
    | FunctionNameNotFound
    | PayloadUnreadable
    | PayloadEmpty
    | InvalidRemoteResponse

  datatype Outcome = Completed | Stopped(failure: Failure)

  /** What the actions write to standard output, one write per entry. */
  datatype Message =
    | RoleRequired
    | Creating(name: string)
    | Copying(filename: string, out: Path)
    | Echo(command: Command)
    | Announce(command: Command)
    | ChildOutput(text: string)
    | ErrorMessage(text: string)
    | EventSourceHint(name: string)
    | Done
    | PushHint
    | NoFunctionName
    | NoPayload
    | LogHeader
    | Log(text: string)
    | OutputHeader
    | Output(text: string)

  /** The text of each write. A child's output and an exception's message are
      written as they are; every other write ends with a line feed, which
      console.log appends and the log and output writes add themselves. */
  function Written(m: Message): (text: string)
    ensures !m.ChildOutput? && !m.ErrorMessage? ==> |text| > 0 && text[|text| - 1] == '\n'
  {
    match m
    case ChildOutput(text) => text
    case ErrorMessage(text) => text
    case _ => Logged(m) + "\n"
  }

  /** A write without its final line feed. */
  function Logged(m: Message): (text: string)
    requires !m.ChildOutput? && !m.ErrorMessage?
  {
    match m
    case RoleRequired => "lambda execution role ARN is required"
    case Creating(name) => "creating " + name + " skill\n"
    case Copying(filename, out) => "copy templates/" + filename + " to " + out
    case Echo(c) => "\n" + Line(c)
    case Announce(c) => "\n" + Line(c) + "\n"
    case EventSourceHint(name) => "go add event source Alexa Skills Kit on " + ConsoleUrl(name)
    case Done => "\ndone"
    case PushHint => "\nalcl push to upload code to AWS"
    case NoFunctionName => "error: cannot find function name; use --function-name <name>"
    case NoPayload => "error: missing test payload in aws/launch.json"
    case LogHeader => "log\n--------------------------------"
    case Log(text) => text
    case OutputHeader => "output\n--------------------------------"
    case Output(text) => text
  }

  datatype After = After(world: World, outcome: Outcome)

  const StateDir := "aws"
  const StateDest := "aws/"
  const CreateDescriptor := "create-function.json"
  const UpdateDescriptor := "update-function-code.json"
  const LaunchDescriptor := "launch.json"
  const UpdatePath := StateDest + UpdateDescriptor
  const LaunchPath := StateDest + LaunchDescriptor
  const PlaceholderUserId := "user123456"

  /** The templates awsConfig renders into aws/, in order, and the paths it writes. */
  const DescriptorTemplates := [CreateDescriptor, UpdateDescriptor, LaunchDescriptor]
  const DescriptorPaths: set<Path> := {StateDest + CreateDescriptor, StateDest + UpdateDescriptor, StateDest + LaunchDescriptor}
  /** The templates `init` renders into the working directory, in order. */
  const SkeletonTemplates := ["package.json", "index.js", ".gitignore"]

  predicate InStateDir(p: Path) {
    |p| >= 4 && p[..4] == StateDest
  }

  // A path under aws/ whose first name after `aws/` is not hidden, so that the
  // entry of aws/ it lies in is one the shell glob `aws/*` lists.
  predicate Globbed(p: Path) {
    InStateDir(p) && |p| > 4 && p[4] != '.'
  }

  // A path directly in aws/ that the glob `aws/*` lists by name.
  predicate DirectlyGlobbed(p: Path) {
    Globbed(p) && forall m :: 4 <= m < |p| ==> p[m] != '/'
  }

  // The glob `aws/*` lists something: aws/ holds a non-hidden entry, be it a
  // file, a directory or the archive aws/lambda.zip itself.
  predicate GlobMatches(files: map<Path, string>, dirs: set<Path>, archive: Option<map<Path, string>>) {
    archive.Some? || (exists p :: p in files && Globbed(p)) || (exists d :: d in dirs && Globbed(d))
  }

  // Whether zip leaves `p` out. execSync hands the command to /bin/sh, which
  // expands the unquoted `aws/*` first. When the glob lists entries, zip excludes
  // exactly those names, so hidden files of aws/ and the files of its
  // subdirectories are archived. When it lists nothing, zip receives the
  // pattern itself, whose `*` matches every path under aws/.
  predicate ZipExcludes(files: map<Path, string>, dirs: set<Path>, archive: Option<map<Path, string>>, p: Path) {
    if GlobMatches(files, dirs, archive) then DirectlyGlobbed(p) else InStateDir(p)
  }

  // What `zip -r aws/lambda.zip . -x aws/*` takes from the working directory.
  function ShellBundle(files: map<Path, string>, dirs: set<Path>, archive: Option<map<Path, string>>)
    : (bundle: map<Path, string>)
    ensures forall p :: p in files && !InStateDir(p) ==> p in bundle && bundle[p] == files[p]
    ensures forall p :: p in bundle ==> p in files && bundle[p] == files[p]
    ensures forall p :: p in files && DirectlyGlobbed(p) ==> p !in bundle
    ensures !GlobMatches(files, dirs, archive) ==> forall p :: p in bundle ==> !InStateDir(p)
  {
    map p | p in files && !ZipExcludes(files, dirs, archive, p) :: files[p]
  }

  // The archive the command is evidently meant to build, as with the pattern
  // quoted (`-x 'aws/*'`): every file outside aws/, unchanged, and nothing under it.
  function Bundle(files: map<Path, string>): (bundle: map<Path, string>)
    ensures forall p :: p in bundle <==> p in files && !InStateDir(p)
    ensures forall p :: p in bundle ==> bundle[p] == files[p]
  {
    map p | p in files && !InStateDir(p) :: files[p]
  }

  /** Once aws/ holds launch.json, a file under aws/ is archived exactly when it is
      hidden or lies in a subdirectory, where the intended archive holds none. */
  lemma StateFilesArchivedAsWritten(files: map<Path, string>, dirs: set<Path>,
                                    archive: Option<map<Path, string>>, p: Path)
    requires LaunchPath in files
    requires p in files && InStateDir(p)
    ensures p in ShellBundle(files, dirs, archive) <==>
      (|p| == 4 || p[4] == '.' || exists m :: 4 <= m < |p| && p[m] == '/')
    ensures p !in Bundle(files)
  {
    assert Globbed(LaunchPath);
    assert GlobMatches(files, dirs, archive);
  }

  /** fs.existsSync: true for a file as well as for a directory. */
  predicate Exists(w: World, p: Path) {
    p in w.files || p in w.dirs
  }

  /** `if (!fs.existsSync(cwd+'aws')) fs.mkdirSync(cwd+'aws')` */
  function EnsureStateDir(w: World): (world: World)
    ensures Exists(world, StateDir)
    ensures w.dirs <= world.dirs && world.dirs - w.dirs <= {StateDir}
    ensures world.files == w.files && world.archive == w.archive
    ensures world.commands == w.commands && world.console == w.console
  {
    if Exists(w, StateDir) then w else w.(dirs := w.dirs + {StateDir})
  }

  /** writeFileSync succeeds when the destination directory exists (the working
      directory always does) and the path is not itself a directory. */
  predicate Writable(w: World, dest: Path, out: Path) {
    (dest == "" || dest[..|dest| - 1] in w.dirs) && out !in w.dirs
  }

  /** copyTemplate(filename, replace, dest): read the template, announce the copy,
      render it, write it to dest+filename. Any exception stops the action. */
  function CopyTemplate(w: World, templates: map<string, string>, filename: string,
                        vars: map<string, string>, dest: Path): (after: After)
  {
    if filename !in templates then After(w, Stopped(TemplateMissing(filename)))
    else
      var out := dest + filename;
      var w1 := w.(console := w.console + [Copying(filename, out)]);
      match Render.RenderText(templates[filename], vars)
      case Unbound(k) => After(w1, Stopped(UnboundVariable(filename, k)))
      case Text(text) =>
        if !Writable(w1, dest, out) then After(w1, Stopped(WriteFailed(out)))
        else After(w1.(files := w1.files[out := text]), Completed)
  }

  /** Consecutive copyTemplate calls with one substitution map and destination;
      the first one that throws stops the rest. */
  function CopyAll(w: World, templates: map<string, string>, filenames: seq<string>,
                   vars: map<string, string>, dest: Path): (after: After)
    decreases |filenames|
  {
    if filenames == [] then After(w, Completed)
    else
      var a := CopyTemplate(w, templates, filenames[0], vars, dest);
      if a.outcome.Stopped? then a else CopyAll(a.world, templates, filenames[1..], vars, dest)
  }

  /** The paths a run of copies writes to. */
  function Targets(filenames: seq<string>, dest: Path): (paths: set<Path>)
    decreases |filenames|
  {
    if filenames == [] then {} else {dest + filenames[0]} + Targets(filenames[1..], dest)
  }

  /** The substitution map of awsConfig: one uuid and one timestamp for all descriptors. */
  function ConfigVars(name: string, uuid: string, timestamp: string): (vars: map<string, string>) {
    map["skillName" := name, "uuid" := uuid, "userId" := PlaceholderUserId, "timestamp" := timestamp]
  }

  /** awsConfig(name): generate one uuid, render the three descriptors into aws/. */
  function AwsConfig(w: World, templates: map<string, string>, name: string,
                     entropy: seq<Uuid.Nibble>, timestamp: string): (after: After)
    requires |entropy| == Uuid.EntropyNibbles
  {
    CopyAll(w, templates, DescriptorTemplates, ConfigVars(name, Uuid.Generate(entropy), timestamp), StateDest)
  }

  /** A child process run either through exitOnError (`echo`: the command and its
      output or error are printed) or by a bare execSync, whose exception also
      ends the action. */
  function Run(w: World, cmd: Command, result: Exec, echo: bool): (after: After)
    ensures after.world.commands == w.commands + [cmd]
    ensures after.world.files == w.files && after.world.dirs == w.dirs && after.world.archive == w.archive
    ensures after.outcome.Completed? <==> result.Succeeded?
    ensures after.outcome.Stopped? ==> after.outcome == Stopped(CommandFailed(cmd))
    ensures !echo ==> after.world.console == w.console
  {
    var w1 := w.(commands := w.commands + [cmd],
                 console := if echo then w.console + [Echo(cmd)] else w.console);
    match result
    case Succeeded(out) =>
      After(if echo then w1.(console := w1.console + [ChildOutput(out)]) else w1, Completed)
    case Failed(message) =>
      After(if echo then w1.(console := w1.console + [ErrorMessage(message)]) else w1, Stopped(CommandFailed(cmd)))
  }

  /** zip -r into an existing archive adds and replaces entries and keeps the others. */
  function Rezip(archive: Option<map<Path, string>>, files: map<Path, string>, dirs: set<Path>)
    : (r: map<Path, string>)
    ensures forall p :: p in files && !InStateDir(p) ==> p in r && r[p] == files[p]
    ensures archive.Some? ==> forall p :: p in archive.value ==> p in r
    ensures forall p :: p in r ==>
      if p in files && !ZipExcludes(files, dirs, archive, p) then r[p] == files[p]
      else archive.Some? && p in archive.value && r[p] == archive.value[p]
  {
    (if archive.Some? then archive.value else map[]) + ShellBundle(files, dirs, archive)
  }

  /** The zip step: on success the archive is rebuilt from the working directory. */
  function Zip(w: World, result: Exec, echo: bool): (after: After)
    ensures after.world.commands == w.commands + [ZipBundle]
    ensures after.world.files == w.files && after.world.dirs == w.dirs
    ensures after.outcome.Completed? <==> result.Succeeded?
    ensures after.outcome.Completed? ==> after.world.archive == Some(Rezip(w.archive, w.files, w.dirs))
    ensures after.outcome.Stopped? ==> after.world.archive == w.archive
  {
    var a := Run(w, ZipBundle, result, echo);
    if a.outcome.Completed? then After(a.world.(archive := Some(Rezip(a.world.archive, a.world.files, a.world.dirs))), Completed) else a
  }

  // ---------------------------------------------------------------------------
  // The actions

  /** `init <name> --role <arn> [--profile <p>]` */
  function Init(w: World, templates: map<string, string>, rawName: string, role: Option<string>,
                profile: Option<string>, entropy: seq<Uuid.Nibble>, timestamp: string,
                npm: Exec, zip: Exec, create: Exec): (after: After)
    requires |entropy| == Uuid.EntropyNibbles
  {
    if !Truthy(role) then
      After(w.(console := w.console + [RoleRequired]), Stopped(MissingRole))
    else
      var name := Text.Normalize(rawName);
      var w1 := EnsureStateDir(w.(console := w.console + [Creating(name)]));
      var s := Skeleton(w1, templates, name);
      if s.outcome.Stopped? then s else
      var d := AwsConfig(s.world, templates, name, entropy, timestamp);
      if d.outcome.Stopped? then d else
      Deploy(d.world, name, role.value, profile, npm, zip, create)
  }

  /** The skill skeleton of `init`, rendered with the skill name only. */
  function Skeleton(w: World, templates: map<string, string>, name: string): (after: After) {
    CopyAll(w, templates, SkeletonTemplates, map["skillName" := name], "")
  }

  /** The end of `init`: install alexa-app, zip, create the function, print the URL. */
  function Deploy(w: World, name: string, role: string, profile: Option<string>,
                  npm: Exec, zip: Exec, create: Exec): (after: After)
  {
    var e := Run(w, NpmInstall, npm, true);
    if e.outcome.Stopped? then e else
    var f := Zip(e.world, zip, false);
    if f.outcome.Stopped? then f else
    var g := Run(f.world, CreateFunction(name, role, profile), create, true);
    if g.outcome.Stopped? then g else
    After(g.world.(console := g.world.console + [EventSourceHint(name), Done]), Completed)
  }

  /** `setup <name>`: descriptors and archive, no remote call. */
  function Setup(w: World, templates: map<string, string>, rawName: string,
                 entropy: seq<Uuid.Nibble>, timestamp: string, zip: Exec): (after: After)
    requires |entropy| == Uuid.EntropyNibbles
  {
    var name := Text.Normalize(rawName);
    var d := AwsConfig(EnsureStateDir(w), templates, name, entropy, timestamp);
    if d.outcome.Stopped? then d else
    var f := Zip(d.world, zip, false);
    if f.outcome.Stopped? then f else
    After(f.world.(console := f.world.console + [PushHint]), Completed)
  }

  /** `push [--profile <p>]`: rebuild the archive, then update the function code. */
  function Push(w: World, profile: Option<string>, zip: Exec, update: Exec): (after: After) {
    var f := Zip(w, zip, true);
    if f.outcome.Stopped? then f else Run(f.world, UpdateFunctionCode(profile), update, true)
  }

  /** `test [--profile <p>]`: invoke the function named in the update descriptor
      with the compacted launch payload, then print the log and the output file.
      `parse` is JSON.parse of the update descriptor; `pretty` is JSON.parse and
      JSON.stringify(_, null, 2) of the output file, or the message of the
      exception JSON.parse raises when it does not parse. */
  function Test(w: World, profile: Option<string>, parse: string -> Descriptor,
                reply: InvokeReply, pretty: string -> Decoded): (after: After)
  {
    if UpdatePath !in w.files then After(w, Stopped(DescriptorUnreadable))
    else
      match parse(w.files[UpdatePath])
      case Unparsable => After(w, Stopped(DescriptorUnreadable))
      case Parsed(name) =>
        if name == "" then
          After(w.(console := w.console + [NoFunctionName]), Stopped(FunctionNameNotFound))
        else if LaunchPath !in w.files then After(w, Stopped(PayloadUnreadable))
        else if w.files[LaunchPath] == "" then
          After(w.(console := w.console + [NoPayload]), Stopped(PayloadEmpty))
        else
          var cmd := Invoke(name, Text.Compact(w.files[LaunchPath]), profile);
          var w1 := w.(commands := w.commands + [cmd], console := w.console + [Announce(cmd)]);
          Receive(w1, cmd, reply, pretty)
  }

  /** The try block of `test` after the invoke command was issued; the catch
      block writes the message of whatever exception the block raised. */
  function Receive(w: World, cmd: Command, reply: InvokeReply, pretty: string -> Decoded): (after: After) {
    match reply
    case Rejected(message) => After(w.(console := w.console + [ErrorMessage(message)]), Stopped(CommandFailed(cmd)))
    case Replied(log, written) =>
      ReadLog(if written.Some? then w.(files := w.files[OutFile := written.value]) else w, log, pretty)
  }

  /** The try block of `test` once the reply is in: print the decoded log, then the output file. */
  function ReadLog(w: World, log: Decoded, pretty: string -> Decoded): (after: After) {
    match log
    case Threw(message) => After(w.(console := w.console + [ErrorMessage(message)]), Stopped(InvalidRemoteResponse))
    case Decoded(text) => ShowOutput(w.(console := w.console + [LogHeader, Log(text)]), pretty)
  }

  /** The message of the exception readFileSync raises for a missing file. */
  function MissingFileMessage(path: Path): (message: string) {
    "ENOENT: no such file or directory, open '" + path + "'"
  }

  /** The end of `test`: read aws/test.json back and print it pretty-printed.
      `pretty` is JSON.parse followed by JSON.stringify(_, null, 2). */
  function ShowOutput(w: World, pretty: string -> Decoded): (after: After) {
    if OutFile !in w.files then
      After(w.(console := w.console + [ErrorMessage(MissingFileMessage(OutFile))]), Stopped(InvalidRemoteResponse))
    else
      match pretty(w.files[OutFile])
      case Threw(message) => After(w.(console := w.console + [ErrorMessage(message)]), Stopped(InvalidRemoteResponse))
      case Decoded(shown) => After(w.(console := w.console + [OutputHeader, Output(shown)]), Completed)
  }

  // ---------------------------------------------------------------------------
  // Properties

  /** What copyTemplate changes: the console, and on success the one file
      dest+filename, which then holds the rendered template. */
  lemma CopyTemplateEffect(w: World, templates: map<string, string>, filename: string,
                           vars: map<string, string>, dest: Path)
    ensures var r := CopyTemplate(w, templates, filename, vars, dest);
      && r.world == w.(files := r.world.files, console := r.world.console)
      && (r.outcome.Completed? <==>
            && filename in templates
            && Render.RenderText(templates[filename], vars).Text?
            && Writable(w, dest, dest + filename))
      && (r.outcome.Completed? ==>
            r.world.files == w.files[dest + filename := Render.RenderText(templates[filename], vars).text])
      && (r.outcome.Stopped? ==> r.world.files == w.files)
  {
  }

  /** Every path outside `written` is present after exactly when it was present
      before, and keeps its contents. */
  ghost predicate SameOutside(before: map<Path, string>, after: map<Path, string>, written: set<Path>) {
    forall p :: p !in written ==> (p in after <==> p in before) && (p in before ==> after[p] == before[p])
  }

  lemma {:induction false} TargetsHas(filenames: seq<string>, dest: Path, p: Path)
    ensures p in Targets(filenames, dest) <==> exists i :: 0 <= i < |filenames| && p == dest + filenames[i]
    decreases |filenames|
  {
    if filenames != [] {
      TargetsHas(filenames[1..], dest, p);
      if p in Targets(filenames[1..], dest) {
        var i :| 0 <= i < |filenames[1..]| && p == dest + filenames[1..][i];
        assert p == dest + filenames[i + 1];
      }
      if exists i :: 0 <= i < |filenames| && p == dest + filenames[i] {
        var i :| 0 <= i < |filenames| && p == dest + filenames[i];
        if i > 0 {
          assert p == dest + filenames[1..][i - 1];
        }
      }
    }
  }

  lemma TargetsOfThree(a: string, b: string, c: string, dest: Path)
    ensures Targets([a, b, c], dest) == {dest + a, dest + b, dest + c}
  {
    assert [a, b, c][1..] == [b, c] && [b, c][1..] == [c] && [c][1..] == [];
    assert Targets([c], dest) == {dest + c};
    assert Targets([b, c], dest) == {dest + b} + {dest + c};
  }

  /** The ways copyTemplate can throw: no template, an unbound key, an unwritable path. */
  predicate CopyFailure(f: Failure) {
    f.TemplateMissing? || f.UnboundVariable? || f.WriteFailed?
  }

  /** A run of copies changes the console and the files it targets, nothing else,
      and when it stops, it stops for a copy failure. */
  lemma {:induction false} CopyAllFrame(w: World, templates: map<string, string>, filenames: seq<string>,
                                        vars: map<string, string>, dest: Path)
    ensures var r := CopyAll(w, templates, filenames, vars, dest);
      && r.world.dirs == w.dirs && r.world.archive == w.archive && r.world.commands == w.commands
      && SameOutside(w.files, r.world.files, Targets(filenames, dest))
      && (r.outcome.Stopped? ==> CopyFailure(r.outcome.failure))
    decreases |filenames|
  {
    if filenames != [] {
      var a := CopyTemplate(w, templates, filenames[0], vars, dest);
      CopyTemplateEffect(w, templates, filenames[0], vars, dest);
      if a.outcome.Completed? {
        CopyAllFrame(a.world, templates, filenames[1..], vars, dest);
      }
    }
  }

  /** A run of copies completes exactly when every template exists, renders and
      has a writable destination. */
  lemma {:induction false} CopyAllCompletes(w: World, templates: map<string, string>, filenames: seq<string>,
                                            vars: map<string, string>, dest: Path)
    ensures CopyAll(w, templates, filenames, vars, dest).outcome.Completed? <==>
      forall i :: 0 <= i < |filenames| ==>
        && filenames[i] in templates
        && Render.RenderText(templates[filenames[i]], vars).Text?
        && Writable(w, dest, dest + filenames[i])
    decreases |filenames|
  {
    if filenames != [] {
      var a := CopyTemplate(w, templates, filenames[0], vars, dest);
      CopyTemplateEffect(w, templates, filenames[0], vars, dest);
      if a.outcome.Completed? {
        var rest := filenames[1..];
        CopyAllCompletes(a.world, templates, rest, vars, dest);
        assert forall i :: 0 < i < |filenames| ==> filenames[i] == rest[i - 1];
      }
    }
  }

  /** When a run of copies completes, each target holds its template rendered. */
  lemma {:induction false} CopyAllWrites(w: World, templates: map<string, string>, filenames: seq<string>,
                                         vars: map<string, string>, dest: Path, i: nat)
    requires CopyAll(w, templates, filenames, vars, dest).outcome.Completed?
    requires i < |filenames|
    ensures var r := CopyAll(w, templates, filenames, vars, dest);
      && filenames[i] in templates
      && dest + filenames[i] in r.world.files
      && Render.RenderText(templates[filenames[i]], vars) == Render.Text(r.world.files[dest + filenames[i]])
    decreases |filenames|
  {
    var f := filenames[0];
    var rest := filenames[1..];
    var a := CopyTemplate(w, templates, f, vars, dest);
    CopyTemplateEffect(w, templates, f, vars, dest);
    var r := CopyAll(a.world, templates, rest, vars, dest);
    if i > 0 {
      assert filenames[i] == rest[i - 1];
      CopyAllWrites(a.world, templates, rest, vars, dest, i - 1);
    } else {
      TargetsHas(rest, dest, dest + f);
      if dest + f in Targets(rest, dest) {
        var j :| 0 <= j < |rest| && dest + f == dest + rest[j];
        assert rest[j] == (dest + rest[j])[|dest|..];
        CopyAllWrites(a.world, templates, rest, vars, dest, j);
      } else {
        CopyAllFrame(a.world, templates, rest, vars, dest);
      }
    }
  }

  /** awsConfig writes only the three descriptors, issues no command and, when it
      completes, leaves each descriptor holding its template rendered with the one
      substitution map carrying the one generated uuid and timestamp. */
  lemma AwsConfigWritesDescriptors(w: World, templates: map<string, string>, name: string,
                                   entropy: seq<Uuid.Nibble>, timestamp: string)
    requires |entropy| == Uuid.EntropyNibbles
    ensures var r := AwsConfig(w, templates, name, entropy, timestamp);
      var vars := ConfigVars(name, Uuid.Generate(entropy), timestamp);
      && r.world.dirs == w.dirs && r.world.archive == w.archive && r.world.commands == w.commands
      && SameOutside(w.files, r.world.files, DescriptorPaths)
      && (r.outcome.Completed? ==>
            forall f :: f in {CreateDescriptor, UpdateDescriptor, LaunchDescriptor} ==>
              && f in templates && StateDest + f in r.world.files
              && Render.RenderText(templates[f], vars) == Render.Text(r.world.files[StateDest + f]))
  {
    var vars := ConfigVars(name, Uuid.Generate(entropy), timestamp);
    CopyAllFrame(w, templates, DescriptorTemplates, vars, StateDest);
    TargetsOfThree(CreateDescriptor, UpdateDescriptor, LaunchDescriptor, StateDest);
    var r := AwsConfig(w, templates, name, entropy, timestamp);
    if r.outcome.Completed? {
      forall f | f in {CreateDescriptor, UpdateDescriptor, LaunchDescriptor}
        ensures f in templates && StateDest + f in r.world.files
        ensures Render.RenderText(templates[f], vars) == Render.Text(r.world.files[StateDest + f])
      {
        var i := if f == CreateDescriptor then 0 else if f == UpdateDescriptor then 1 else 2;
        assert DescriptorTemplates[i] == f;
        CopyAllWrites(w, templates, DescriptorTemplates, vars, StateDest, i);
      }
    }
  }

  /** Every descriptor that references `${uuid}`, `${timestamp}` or `${skillName}`
      embeds the run's single identifier, timestamp or skill name. */
  lemma DescriptorsShareRunValues(w: World, templates: map<string, string>, name: string,
                                  entropy: seq<Uuid.Nibble>, timestamp: string, f: string)
    requires |entropy| == Uuid.EntropyNibbles
    requires AwsConfig(w, templates, name, entropy, timestamp).outcome.Completed?
    requires f in {CreateDescriptor, UpdateDescriptor, LaunchDescriptor}
    ensures var files := AwsConfig(w, templates, name, entropy, timestamp).world.files;
      && StateDest + f in files && f in templates
      && ("uuid" in Render.References(templates[f]) ==> Render.IsInfix(Uuid.Generate(entropy), files[StateDest + f]))
      && ("timestamp" in Render.References(templates[f]) ==> Render.IsInfix(timestamp, files[StateDest + f]))
      && ("skillName" in Render.References(templates[f]) ==> Render.IsInfix(name, files[StateDest + f]))
  {
    AwsConfigWritesDescriptors(w, templates, name, entropy, timestamp);
    var vars := ConfigVars(name, Uuid.Generate(entropy), timestamp);
    if "uuid" in Render.References(templates[f]) {
      Render.RenderEmbedsValues(templates[f], vars, "uuid");
    }
    if "timestamp" in Render.References(templates[f]) {
      Render.RenderEmbedsValues(templates[f], vars, "timestamp");
    }
    if "skillName" in Render.References(templates[f]) {
      Render.RenderEmbedsValues(templates[f], vars, "skillName");
    }
  }

  /** The three skeleton files of `init` are written to the working directory. */
  const SkeletonPaths: set<Path> := {"package.json", "index.js", ".gitignore"}

  /** `init` without a role stops at once: no file, directory or command. */
  lemma InitRequiresRole(w: World, templates: map<string, string>, rawName: string, role: Option<string>,
                         profile: Option<string>, entropy: seq<Uuid.Nibble>, timestamp: string,
                         npm: Exec, zip: Exec, create: Exec)
    requires |entropy| == Uuid.EntropyNibbles
    ensures var r := Init(w, templates, rawName, role, profile, entropy, timestamp, npm, zip, create);
      (r.outcome == Stopped(MissingRole)) <==> !Truthy(role)
    ensures var r := Init(w, templates, rawName, role, profile, entropy, timestamp, npm, zip, create);
      !Truthy(role) ==>
        r.world == w.(console := w.console + [RoleRequired])
  {
    var r := Init(w, templates, rawName, role, profile, entropy, timestamp, npm, zip, create);
    if Truthy(role) {
      InitCommands(w, templates, rawName, role, profile, entropy, timestamp, npm, zip, create);
    }
  }

  lemma SkeletonWritesSkeleton(w: World, templates: map<string, string>, name: string)
    ensures var r := Skeleton(w, templates, name);
      && r.world.dirs == w.dirs && r.world.archive == w.archive && r.world.commands == w.commands
      && SameOutside(w.files, r.world.files, SkeletonPaths)
      && (r.outcome.Completed? ==>
            forall i :: 0 <= i < |SkeletonTemplates| ==>
              && SkeletonTemplates[i] in r.world.files
              && Render.RenderText(templates[SkeletonTemplates[i]], map["skillName" := name])
                 == Render.Text(r.world.files[SkeletonTemplates[i]]))
  {
    var vars := map["skillName" := name];
    CopyAllFrame(w, templates, SkeletonTemplates, vars, "");
    TargetsOfThree("package.json", "index.js", ".gitignore", "");
    assert forall f :: "" + f == f;
    var r := Skeleton(w, templates, name);
    if r.outcome.Completed? {
      forall i | 0 <= i < |SkeletonTemplates|
        ensures SkeletonTemplates[i] in r.world.files
        ensures Render.RenderText(templates[SkeletonTemplates[i]], vars) == Render.Text(r.world.files[SkeletonTemplates[i]])
      {
        CopyAllWrites(w, templates, SkeletonTemplates, vars, "", i);
      }
    }
  }

  /** The commands of the end of `init`, each issued only after the previous one succeeded. */
  lemma DeployCommands(w: World, name: string, role: string, profile: Option<string>,
                       npm: Exec, zip: Exec, create: Exec)
    ensures var r := Deploy(w, name, role, profile, npm, zip, create);
      var issued := [NpmInstall, ZipBundle, CreateFunction(name, role, profile)];
      && r.world.files == w.files
      && (npm.Failed? ==> r.world.commands == w.commands + issued[..1])
      && (npm.Succeeded? && zip.Failed? ==> r.world.commands == w.commands + issued[..2])
      && (npm.Succeeded? && zip.Succeeded? ==> r.world.commands == w.commands + issued)
      && (r.outcome.Completed? <==> npm.Succeeded? && zip.Succeeded? && create.Succeeded?)
  {
    var issued := [NpmInstall, ZipBundle, CreateFunction(name, role, profile)];
    assert issued[..1] == [NpmInstall];
    assert issued[..2] == [NpmInstall, ZipBundle];
  }

  lemma SameOutsideTrans(a: map<Path, string>, b: map<Path, string>, c: map<Path, string>, s: set<Path>, t: set<Path>)
    requires SameOutside(a, b, s) && SameOutside(b, c, t)
    ensures SameOutside(a, c, s + t)
  {
  }

  /** The commands `init` issues: npm install, zip, create-function, in that
      order, each only after the previous one succeeded; create-function names the
      normalised skill. */
  lemma InitCommands(w: World, templates: map<string, string>, rawName: string, role: Option<string>,
                     profile: Option<string>, entropy: seq<Uuid.Nibble>, timestamp: string,
                     npm: Exec, zip: Exec, create: Exec)
    requires |entropy| == Uuid.EntropyNibbles
    requires Truthy(role)
    ensures var r := Init(w, templates, rawName, role, profile, entropy, timestamp, npm, zip, create);
      var issued := [NpmInstall, ZipBundle, CreateFunction(Text.Normalize(rawName), role.value, profile)];
      && r.outcome != Stopped(MissingRole)
      && |w.commands| <= |r.world.commands| <= |w.commands| + 3
      && r.world.commands == w.commands + issued[..|r.world.commands| - |w.commands|]
      && (|r.world.commands| >= |w.commands| + 2 ==> npm.Succeeded?)
      && (|r.world.commands| == |w.commands| + 3 ==> npm.Succeeded? && zip.Succeeded?)
      && (r.outcome.Completed? ==> r.world.commands == w.commands + issued && create.Succeeded?)
  {
    var name := Text.Normalize(rawName);
    var issued := [NpmInstall, ZipBundle, CreateFunction(name, role.value, profile)];
    var w1 := EnsureStateDir(w.(console := w.console + [Creating(name)]));
    var r := Init(w, templates, rawName, role, profile, entropy, timestamp, npm, zip, create);
    var s := Skeleton(w1, templates, name);
    StagesIssueNoCommand(w1, templates, name, entropy, timestamp);
    if s.outcome.Stopped? {
      assert r == s;
      assert w.commands + issued[..0] == w.commands;
    } else {
      var d := AwsConfig(s.world, templates, name, entropy, timestamp);
      StagesIssueNoCommand(s.world, templates, name, entropy, timestamp);
      if d.outcome.Stopped? {
        assert r == d;
        assert w.commands + issued[..0] == w.commands;
      } else {
        DeployIssuesPrefix(d.world, name, role.value, profile, npm, zip, create);
        assert r == Deploy(d.world, name, role.value, profile, npm, zip, create);
      }
    }
  }

  /** The end of `init` issues a prefix of npm install, zip, create-function, each
      only after the previous one succeeded, and all three when it completes. */
  lemma DeployIssuesPrefix(w: World, name: string, role: string, profile: Option<string>,
                           npm: Exec, zip: Exec, create: Exec)
    ensures var r := Deploy(w, name, role, profile, npm, zip, create);
      var issued := [NpmInstall, ZipBundle, CreateFunction(name, role, profile)];
      && |w.commands| <= |r.world.commands| <= |w.commands| + 3
      && r.world.commands == w.commands + issued[..|r.world.commands| - |w.commands|]
      && (|r.world.commands| >= |w.commands| + 2 ==> npm.Succeeded?)
      && (|r.world.commands| == |w.commands| + 3 ==> npm.Succeeded? && zip.Succeeded?)
      && (r.outcome.Completed? ==> r.world.commands == w.commands + issued && create.Succeeded?)
  {
    DeployCommands(w, name, role, profile, npm, zip, create);
    var issued := [NpmInstall, ZipBundle, CreateFunction(name, role, profile)];
    assert issued[..3] == issued;
  }

  /** Neither the skeleton nor the descriptors issue a command, and both can
      only stop for a copy failure. */
  lemma StagesIssueNoCommand(w: World, templates: map<string, string>, name: string,
                             entropy: seq<Uuid.Nibble>, timestamp: string)
    requires |entropy| == Uuid.EntropyNibbles
    ensures var s := Skeleton(w, templates, name);
      s.world.commands == w.commands && (s.outcome.Stopped? ==> CopyFailure(s.outcome.failure))
    ensures var d := AwsConfig(w, templates, name, entropy, timestamp);
      d.world.commands == w.commands && (d.outcome.Stopped? ==> CopyFailure(d.outcome.failure))
  {
    CopyAllFrame(w, templates, SkeletonTemplates, map["skillName" := name], "");
    CopyAllFrame(w, templates, DescriptorTemplates, ConfigVars(name, Uuid.Generate(entropy), timestamp), StateDest);
  }

  /** `init` writes only the three skeleton files and the three descriptors. */
  lemma InitWritesSkeletonAndDescriptors(w: World, templates: map<string, string>, rawName: string,
                                         role: Option<string>, profile: Option<string>,
                                         entropy: seq<Uuid.Nibble>, timestamp: string,
                                         npm: Exec, zip: Exec, create: Exec)
    requires |entropy| == Uuid.EntropyNibbles
    ensures var r := Init(w, templates, rawName, role, profile, entropy, timestamp, npm, zip, create);
      SameOutside(w.files, r.world.files, SkeletonPaths + DescriptorPaths)
  {
    if Truthy(role) {
      var name := Text.Normalize(rawName);
      var w1 := EnsureStateDir(w.(console := w.console + [Creating(name)]));
      var r := Init(w, templates, rawName, role, profile, entropy, timestamp, npm, zip, create);
      var s := Skeleton(w1, templates, name);
      SkeletonWritesSkeleton(w1, templates, name);
      if s.outcome.Completed? {
        var d := AwsConfig(s.world, templates, name, entropy, timestamp);
        AwsConfigWritesDescriptors(s.world, templates, name, entropy, timestamp);
        SameOutsideTrans(w.files, s.world.files, d.world.files, SkeletonPaths, DescriptorPaths);
        if d.outcome.Completed? {
          DeployCommands(d.world, name, role.value, profile, npm, zip, create);
        }
      }
    }
  }

  /** `setup` issues no remote command: at most the zip step. On completion the
      archive is the previous one with the working directory's files zipped into
      it (see Rezip), and the descriptors are rendered for the normalised name. */
  lemma SetupIssuesOnlyZip(w: World, templates: map<string, string>, rawName: string,
                           entropy: seq<Uuid.Nibble>, timestamp: string, zip: Exec)
    requires |entropy| == Uuid.EntropyNibbles
    ensures var r := Setup(w, templates, rawName, entropy, timestamp, zip);
      var vars := ConfigVars(Text.Normalize(rawName), Uuid.Generate(entropy), timestamp);
      && (r.world.commands == w.commands || r.world.commands == w.commands + [ZipBundle])
      && SameOutside(w.files, r.world.files, DescriptorPaths)
      && (r.outcome.Completed? ==>
            && r.world.commands == w.commands + [ZipBundle]
            && r.world.archive == Some(Rezip(w.archive, r.world.files, r.world.dirs))
            && (forall f :: f in {CreateDescriptor, UpdateDescriptor, LaunchDescriptor} ==>
                  && f in templates && StateDest + f in r.world.files
                  && Render.RenderText(templates[f], vars) == Render.Text(r.world.files[StateDest + f])))
  {
    AwsConfigWritesDescriptors(EnsureStateDir(w), templates, Text.Normalize(rawName), entropy, timestamp);
  }

  /** The scenario `setup "My Skill!"`: every descriptor is rendered with skillName MySkill. */
  lemma SetupNormalizesName(w: World, templates: map<string, string>, rawName: string,
                            entropy: seq<Uuid.Nibble>, timestamp: string, zip: Exec)
    requires |entropy| == Uuid.EntropyNibbles
    requires |rawName| == 9 && forall k :: 0 <= k < 9 ==> rawName[k] == "My Skill!"[k]
    requires Setup(w, templates, rawName, entropy, timestamp, zip).outcome.Completed?
    ensures var files := Setup(w, templates, rawName, entropy, timestamp, zip).world.files;
      forall f :: f in {CreateDescriptor, UpdateDescriptor, LaunchDescriptor} ==>
        && f in templates && StateDest + f in files
        && Render.RenderText(templates[f], ConfigVars("MySkill", Uuid.Generate(entropy), timestamp))
           == Render.Text(files[StateDest + f])
  {
    Text.NormalizeExample(rawName);
    SetupIssuesOnlyZip(w, templates, rawName, entropy, timestamp, zip);
  }

  /** `push` issues update-function-code only after the zip step succeeded. */
  lemma PushFailsFast(w: World, profile: Option<string>, zip: Exec, update: Exec)
    ensures var r := Push(w, profile, zip, update);
      && r.world.files == w.files
      && (zip.Failed? ==> r.world.commands == w.commands + [ZipBundle]
                          && r.outcome == Stopped(CommandFailed(ZipBundle))
                          && r.world.archive == w.archive)
      && (zip.Succeeded? ==> r.world.commands == w.commands + [ZipBundle, UpdateFunctionCode(profile)]
                             && r.world.archive == Some(Rezip(w.archive, w.files, w.dirs)))
      && (r.outcome.Completed? <==> zip.Succeeded? && update.Succeeded?)
  {
  }

  /** The invoke command `test` issues, if any. */
  function TestInvocation(w: World, profile: Option<string>, parse: string -> Descriptor): (invocation: Option<Command>) {
    if UpdatePath in w.files && parse(w.files[UpdatePath]).Parsed? && parse(w.files[UpdatePath]).functionName != ""
       && LaunchPath in w.files && w.files[LaunchPath] != ""
    then Some(Invoke(parse(w.files[UpdatePath]).functionName, Text.Compact(w.files[LaunchPath]), profile))
    else None
  }

  /** `test` issues exactly one invoke, and only when the update descriptor names a
      function and the launch payload is not empty; the command uses that name and
      the payload with all whitespace removed. */
  lemma TestInvokesOnlyWithNameAndPayload(w: World, profile: Option<string>, parse: string -> Descriptor,
                                          reply: InvokeReply, pretty: string -> Decoded)
    ensures var r := Test(w, profile, parse, reply, pretty);
      && (TestInvocation(w, profile, parse).None? ==> r.world.commands == w.commands && r.outcome.Stopped?)
      && (TestInvocation(w, profile, parse).Some? ==> r.world.commands == w.commands + [TestInvocation(w, profile, parse).value])
      && (UpdatePath !in w.files ==> r.outcome == Stopped(DescriptorUnreadable))
      && r.world.dirs == w.dirs && r.world.archive == w.archive
      && SameOutside(w.files, r.world.files, {OutFile})
  {
    var inv := TestInvocation(w, profile, parse);
    if inv.Some? {
      var cmd := inv.value;
      var w1 := w.(commands := w.commands + [cmd], console := w.console + [Announce(cmd)]);
      assert Test(w, profile, parse, reply, pretty) == Receive(w1, cmd, reply, pretty);
      ReceiveEffect(w1, cmd, reply, pretty);
    }
  }

  /** After the invoke, `test` issues no further command and writes at most the
      output file; it completes exactly when every step of its try block succeeds,
      and otherwise the last thing it writes is the message of the exception. */
  lemma ReceiveEffect(w: World, cmd: Command, reply: InvokeReply, pretty: string -> Decoded)
    ensures var r := Receive(w, cmd, reply, pretty);
      && r.world.commands == w.commands && r.world.dirs == w.dirs && r.world.archive == w.archive
      && SameOutside(w.files, r.world.files, {OutFile})
      && (reply.Rejected? ==> r.outcome == Stopped(CommandFailed(cmd)))
      && (r.outcome.Completed? <==>
            (reply.Replied? && reply.log.Decoded? && OutFile in r.world.files && pretty(r.world.files[OutFile]).Decoded?))
      && (r.outcome.Stopped? ==> |r.world.console| > |w.console| && r.world.console[|r.world.console| - 1].ErrorMessage?)
      && (reply.Replied? && reply.log.Threw? ==> r.world.console == w.console + [ErrorMessage(reply.log.message)])
      && (reply.Replied? && reply.log.Decoded? && OutFile !in r.world.files ==>
            r.world.console == w.console + [LogHeader, Log(reply.log.text), ErrorMessage(MissingFileMessage(OutFile))])
  {
  }

  /** `setup` and then `test`: the function `test` invokes is the one named in the
      update descriptor that `setup` rendered for the normalised name, which that
      descriptor contains when its template references `${skillName}`. A `push`
      in between changes nothing of this (PushKeepsTestInvocation). */
  lemma SetupThenTestInvokesRecordedName(w: World, templates: map<string, string>, rawName: string,
                                          entropy: seq<Uuid.Nibble>, timestamp: string, zip: Exec,
                                          profile: Option<string>, parse: string -> Descriptor)
    requires |entropy| == Uuid.EntropyNibbles
    requires Setup(w, templates, rawName, entropy, timestamp, zip).outcome.Completed?
    ensures var set_up := Setup(w, templates, rawName, entropy, timestamp, zip).world;
      var name := Text.Normalize(rawName);
      && UpdateDescriptor in templates
      && var recorded := Render.RenderText(templates[UpdateDescriptor], ConfigVars(name, Uuid.Generate(entropy), timestamp));
         && recorded.Text?
         && UpdatePath in set_up.files && set_up.files[UpdatePath] == recorded.text
         && ("skillName" in Render.References(templates[UpdateDescriptor]) ==> Render.IsInfix(name, recorded.text))
         && (TestInvocation(set_up, profile, parse).Some? ==>
               TestInvocation(set_up, profile, parse).value.name == parse(recorded.text).functionName)
  {
    var name := Text.Normalize(rawName);
    var vars := ConfigVars(name, Uuid.Generate(entropy), timestamp);
    var set_up := Setup(w, templates, rawName, entropy, timestamp, zip).world;
    SetupRecordsUpdateDescriptor(w, templates, rawName, entropy, timestamp, zip);
    RecordedNameInvoked(set_up, set_up.files[UpdatePath], profile, parse);
    if "skillName" in Render.References(templates[UpdateDescriptor]) {
      Render.RenderEmbedsValues(templates[UpdateDescriptor], vars, "skillName");
    }
  }

  /** `push` leaves the files alone, so whether it succeeds or fails, a later
      `test` issues the same invoke as it would have issued before it. */
  lemma PushKeepsTestInvocation(w: World, pushProfile: Option<string>, zip: Exec, update: Exec,
                                profile: Option<string>, parse: string -> Descriptor)
    ensures TestInvocation(Push(w, pushProfile, zip, update).world, profile, parse) == TestInvocation(w, profile, parse)
  {
    PushFailsFast(w, pushProfile, zip, update);
    TestInvocationReadsFiles(w, Push(w, pushProfile, zip, update).world, profile, parse);
  }

  /** A completed `setup` leaves aws/update-function-code.json holding its template
      rendered with the normalised name. */
  lemma SetupRecordsUpdateDescriptor(w: World, templates: map<string, string>, rawName: string,
                                     entropy: seq<Uuid.Nibble>, timestamp: string, zip: Exec)
    requires |entropy| == Uuid.EntropyNibbles
    requires Setup(w, templates, rawName, entropy, timestamp, zip).outcome.Completed?
    ensures var files := Setup(w, templates, rawName, entropy, timestamp, zip).world.files;
      && UpdateDescriptor in templates && UpdatePath in files
      && Render.RenderText(templates[UpdateDescriptor],
                           ConfigVars(Text.Normalize(rawName), Uuid.Generate(entropy), timestamp))
         == Render.Text(files[UpdatePath])
  {
    var vars := ConfigVars(Text.Normalize(rawName), Uuid.Generate(entropy), timestamp);
    var w0 := EnsureStateDir(w);
    var d := AwsConfig(w0, templates, Text.Normalize(rawName), entropy, timestamp);
    assert d.outcome.Completed?;
    var f := Zip(d.world, zip, false);
    assert f.world.files == d.world.files;
    CopyAllWrites(w0, templates, DescriptorTemplates, vars, StateDest, 1);
    assert DescriptorTemplates[1] == UpdateDescriptor;
  }

  /** The invoke `test` issues depends on the files of the working directory only. */
  lemma TestInvocationReadsFiles(w: World, w': World, profile: Option<string>, parse: string -> Descriptor)
    requires w'.files == w.files
    ensures TestInvocation(w', profile, parse) == TestInvocation(w, profile, parse)
  {
  }

  /** A working directory whose update descriptor holds `recorded` makes `test`
      invoke the function that `recorded` names. */
  lemma RecordedNameInvoked(w: World, recorded: string, profile: Option<string>, parse: string -> Descriptor)
    requires UpdatePath in w.files && w.files[UpdatePath] == recorded
    ensures TestInvocation(w, profile, parse).Some? ==>
      TestInvocation(w, profile, parse).value.name == parse(recorded).functionName
  {
    if TestInvocation(w, profile, parse).Some? {
      TestPayloadIsCompact(w, profile, parse);
    }
  }

  /** The invoke names the function of the update descriptor, and its payload
      argument carries no whitespace and keeps every other character of
      aws/launch.json in order. */
  lemma TestPayloadIsCompact(w: World, profile: Option<string>, parse: string -> Descriptor)
    requires TestInvocation(w, profile, parse).Some?
    ensures var c := TestInvocation(w, profile, parse).value;
      && c.Invoke? && c.name == parse(w.files[UpdatePath]).functionName && c.profile == profile
      && (forall i :: 0 <= i < |c.payload| ==> !Text.IsJsSpace(c.payload[i]))
      && c.payload == Text.Filter(w.files[LaunchPath], Text.IsSignificant)
  {
  }
}
