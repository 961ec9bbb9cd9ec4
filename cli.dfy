/** The action bodies of index.js as methods of the working directory they
    change step by step. Each method does what its source function does, one
    statement at a time, and its postcondition says that the new state and the
    outcome are those of the corresponding function of the Pipeline module, about
    which the properties are proved. */
module Cli {
  import opened Options
  import Text
  import Uuid
  import Render
  import opened Commands
  import opened Pipeline

  class Workspace {
    var files: map<Path, string>
    var dirs: set<Path>
    var archive: Option<map<Path, string>>
    /** Every external command issued, in order. */
    var commands: seq<Command>
    /** Everything written to standard output, one write per entry. */
    var console: seq<Message>
    /** The files under templates/ beside the tool, which it only reads. */
    const templates: map<string, string>

    function State(): (world: World)
      reads this
    {
      World(files, dirs, archive, commands, console)
    }

    constructor (files0: map<Path, string>, dirs0: set<Path>, templates0: map<string, string>)
      ensures State() == World(files0, dirs0, None, [], []) && templates == templates0
    {
      files, dirs, archive, commands, console := files0, dirs0, None, [], [];
      templates := templates0;
    }

    /** console.log and process.stdout.write */
    method Print(m: Message)
      modifies this
      ensures State() == old(State()).(console := old(console) + [m])
    {
      console := console + [m];
    }

    method EnsureStateDir()
      modifies this
      ensures State() == Pipeline.EnsureStateDir(old(State()))
    {
      if !(StateDir in files || StateDir in dirs) {
        dirs := dirs + {StateDir};
      }
    }

    /** copyTemplate(filename, replace, dest) */
    method CopyTemplate(filename: string, vars: map<string, string>, dest: Path) returns (outcome: Outcome)
      modifies this
      ensures After(State(), outcome) == Pipeline.CopyTemplate(old(State()), templates, filename, vars, dest)
    {
      if filename !in templates {
        return Stopped(TemplateMissing(filename));
      }
      var template := templates[filename];
      var out := dest + filename;
      Print(Copying(filename, out));
      var compiled := Render.Compile(template);
      var rendered := Render.Apply(compiled, vars);
      if rendered.Unbound? {
        return Stopped(UnboundVariable(filename, rendered.key));
      }
      if !Writable(State(), dest, out) {
        return Stopped(WriteFailed(out));
      }
      files := files[out := rendered.text];
      return Completed;
    }

    /** awsConfig(name) */
    method AwsConfig(name: string, entropy: seq<Uuid.Nibble>, timestamp: string) returns (outcome: Outcome)
      requires |entropy| == Uuid.EntropyNibbles
      modifies this
      ensures After(State(), outcome) == Pipeline.AwsConfig(old(State()), templates, name, entropy, timestamp)
    {
      var uuid := Uuid.Generate(entropy);
      var replace := ConfigVars(name, uuid, timestamp);
      outcome := CopyThree(CreateDescriptor, UpdateDescriptor, LaunchDescriptor, replace, StateDest);
    }

    /** Three copyTemplate calls in a row with one map and one destination. */
    method CopyThree(a: string, b: string, c: string, vars: map<string, string>, dest: Path) returns (outcome: Outcome)
      modifies this
      ensures After(State(), outcome) == CopyAll(old(State()), templates, [a, b, c], vars, dest)
    {
      assert [a, b, c][1..] == [b, c] && [b, c][1..] == [c] && [c][1..] == [];
      ghost var w0 := State();
      outcome := CopyTemplate(a, vars, dest);
      if outcome.Stopped? {
        return;
      }
      ghost var w1 := State();
      outcome := CopyTemplate(b, vars, dest);
      if outcome.Stopped? {
        return;
      }
      ghost var w2 := State();
      outcome := CopyTemplate(c, vars, dest);
      assert CopyAll(w2, templates, [c], vars, dest) == After(State(), outcome);
      assert CopyAll(w1, templates, [b, c], vars, dest) == After(State(), outcome);
    }

    /** exitOnError(cmd) with the child process's result. */
    method ExitOnError(cmd: Command, result: Exec) returns (outcome: Outcome)
      modifies this
      ensures After(State(), outcome) == Run(old(State()), cmd, result, true)
    {
      Print(Echo(cmd));
      commands := commands + [cmd];
      match result
      case Succeeded(out) =>
        Print(ChildOutput(out));
        outcome := Completed;
      case Failed(message) =>
        Print(ErrorMessage(message));
        outcome := Stopped(CommandFailed(cmd));
    }

    /** The zip step, through exitOnError (`push`) or a bare execSync (`init`, `setup`). */
    method Zip(result: Exec, viaExitOnError: bool) returns (outcome: Outcome)
      modifies this
      ensures After(State(), outcome) == Pipeline.Zip(old(State()), result, viaExitOnError)
    {
      if viaExitOnError {
        outcome := ExitOnError(ZipBundle, result);
      } else {
        commands := commands + [ZipBundle];
        outcome := if result.Succeeded? then Completed else Stopped(CommandFailed(ZipBundle));
      }
      if outcome.Completed? {
        archive := Some(Rezip(archive, files, dirs));
      }
    }

    /** The action of `init <name>`. */
    method Init(rawName: string, role: Option<string>, profile: Option<string>,
                entropy: seq<Uuid.Nibble>, timestamp: string, npm: Exec, zip: Exec, create: Exec)
      returns (outcome: Outcome)
      requires |entropy| == Uuid.EntropyNibbles
      modifies this
      ensures After(State(), outcome)
        == Pipeline.Init(old(State()), templates, rawName, role, profile, entropy, timestamp, npm, zip, create)
    {
      if !Truthy(role) {
        Print(RoleRequired);
        return Stopped(MissingRole);
      }
      var name := Text.Normalize(rawName);
      Print(Creating(name));
      EnsureStateDir();
      ghost var started := State();
      var replace := map["skillName" := name];
      outcome := CopyThree("package.json", "index.js", ".gitignore", replace, "");
      assert After(State(), outcome) == Skeleton(started, templates, name);
      if outcome.Stopped? {
        return;
      }
      outcome := AwsConfig(name, entropy, timestamp);
      if outcome.Stopped? {
        return;
      }
      outcome := Deploy(name, role.value, profile, npm, zip, create);
    }

    /** The end of `init`: npm install, zip, create-function, the follow-up URL. */
    method Deploy(name: string, role: string, profile: Option<string>, npm: Exec, zip: Exec, create: Exec)
      returns (outcome: Outcome)
      modifies this
      ensures After(State(), outcome) == Pipeline.Deploy(old(State()), name, role, profile, npm, zip, create)
    {
      ghost var w := State();
      outcome := ExitOnError(NpmInstall, npm);
      ghost var e := Run(w, NpmInstall, npm, true);
      if outcome.Stopped? {
        return;
      }
      outcome := Zip(zip, false);
      ghost var f := Pipeline.Zip(e.world, zip, false);
      if outcome.Stopped? {
        return;
      }
      var cmd := CreateFunction(name, role, profile);
      outcome := ExitOnError(cmd, create);
      ghost var g := Run(f.world, cmd, create, true);
      if outcome.Stopped? {
        return;
      }
      assert State() == g.world;
      Print(EventSourceHint(name));
      Print(Done);
    }

    /** The action of `setup <name>`. */
    method Setup(rawName: string, entropy: seq<Uuid.Nibble>, timestamp: string, zip: Exec)
      returns (outcome: Outcome)
      requires |entropy| == Uuid.EntropyNibbles
      modifies this
      ensures After(State(), outcome) == Pipeline.Setup(old(State()), templates, rawName, entropy, timestamp, zip)
    {
      var name := Text.Normalize(rawName);
      EnsureStateDir();
      outcome := AwsConfig(name, entropy, timestamp);
      if outcome.Stopped? {
        return;
      }
      outcome := Zip(zip, false);
      if outcome.Stopped? {
        return;
      }
      Print(PushHint);
    }

    /** The action of `push`. */
    method Push(profile: Option<string>, zip: Exec, update: Exec) returns (outcome: Outcome)
      modifies this
      ensures After(State(), outcome) == Pipeline.Push(old(State()), profile, zip, update)
    {
      outcome := Zip(zip, true);
      if outcome.Stopped? {
        return;
      }
      var cmd := UpdateFunctionCode(profile);
      outcome := ExitOnError(cmd, update);
    }

    /** The action of `test`. */
    method Test(profile: Option<string>, parse: string -> Descriptor, reply: InvokeReply,
                pretty: string -> Decoded) returns (outcome: Outcome)
      modifies this
      ensures After(State(), outcome) == Pipeline.Test(old(State()), profile, parse, reply, pretty)
    {
      if UpdatePath !in files {
        return Stopped(DescriptorUnreadable);
      }
      var update := parse(files[UpdatePath]);
      if update.Unparsable? {
        return Stopped(DescriptorUnreadable);
      }
      var name := update.functionName;
      if name == "" {
        Print(NoFunctionName);
        return Stopped(FunctionNameNotFound);
      }
      if LaunchPath !in files {
        return Stopped(PayloadUnreadable);
      }
      var payload := files[LaunchPath];
      if payload == "" {
        Print(NoPayload);
        return Stopped(PayloadEmpty);
      }
      payload := Text.Compact(payload);
      var cmd := Invoke(name, payload, profile);
      Print(Announce(cmd));
      commands := commands + [cmd];
      outcome := Receive(cmd, reply, pretty);
    }

    /** The try block of `test` once the invoke command was issued. */
    method Receive(cmd: Command, reply: InvokeReply, pretty: string -> Decoded) returns (outcome: Outcome)
      modifies this
      ensures After(State(), outcome) == Pipeline.Receive(old(State()), cmd, reply, pretty)
    {
      match reply
      case Rejected(message) =>
        Print(ErrorMessage(message));
        return Stopped(CommandFailed(cmd));
      case Replied(log, written) =>
        if written.Some? {
          files := files[OutFile := written.value];
        }
        outcome := ReadLog(log, pretty);
    }

    /** Print the decoded log, then the output file. */
    method ReadLog(log: Decoded, pretty: string -> Decoded) returns (outcome: Outcome)
      modifies this
      ensures After(State(), outcome) == Pipeline.ReadLog(old(State()), log, pretty)
    {
      match log
      case Threw(message) =>
        Print(ErrorMessage(message));
        return Stopped(InvalidRemoteResponse);
      case Decoded(text) =>
        Print(LogHeader);
        Print(Log(text));
        outcome := ShowOutput(pretty);
    }

    /** Read aws/test.json back and print it pretty-printed. */
    method ShowOutput(pretty: string -> Decoded) returns (outcome: Outcome)
      modifies this
      ensures After(State(), outcome) == Pipeline.ShowOutput(old(State()), pretty)
    {
      if OutFile !in files {
        Print(ErrorMessage(MissingFileMessage(OutFile)));
        return Stopped(InvalidRemoteResponse);
      }
      match pretty(files[OutFile])
      case Threw(message) =>
        Print(ErrorMessage(message));
        return Stopped(InvalidRemoteResponse);
      case Decoded(shown) =>
        Print(OutputHeader);
        Print(Output(shown));
        return Completed;
    }
  }
}
