/** The external command lines that the action bodies of index.js hand to the
    shell, and the console URL printed after `init`. */
module Commands {
  import opened Options
  import Text

  const ZipCommand := "zip -r aws/lambda.zip . -x aws/*"
  const NpmInstallCommand := "npm install --save alexa-app"
  const OutFile := "aws/test.json"

  /** JavaScript truthiness of an optional string option (`if (options.role)`,
      `if (options.profile)`): given and not empty. */
  predicate Truthy(option: Option<string>) {
    option.Some? && option.value != ""
  }

  function ProfileFlag(profile: Option<string>): (flag: string)
    requires Truthy(profile)
  {
    " --profile " + profile.value
  }

  /** `aws lambda create-function` without the optional profile. */
  function CreateFunctionBase(name: string, role: string): (cmd: string) {
    CreateFunctionLead + (name + " ") + CreateFunctionTail(role)
  }

  const CreateFunctionLead := "aws lambda create-function --region us-east-1 --function-name "

  function CreateFunctionTail(role: string): (text: string) {
    "--runtime nodejs4.3 --role " + role + " --handler index.handler "
    + "--zip-file fileb://aws/lambda.zip "
    + "--cli-input-json file://aws/create-function.json"
  }

  const UpdateFunctionCodeBase :=
    "aws lambda update-function-code --region us-east-1 "
    + "--zip-file fileb://aws/lambda.zip "
    + "--cli-input-json file://aws/update-function-code.json"

  /** `aws lambda invoke` up to, and without, the profile and the output file. */
  function InvokeBase(name: string, payload: string): (text: string) {
    "aws lambda invoke --region us-east-1 "
    + " --function-name " + name
    + " --payload " + "'" + payload + "'"
    + " --log-type Tail "
  }

  /** A command is its fixed text, followed by the profile flag exactly when a profile is given. */
  predicate FixedThenProfile(cmd: string, fixed: string, profile: Option<string>) {
    && |fixed| <= |cmd|
    && cmd[..|fixed|] == fixed
    && (Truthy(profile) <==> |cmd| > |fixed|)
    && (Truthy(profile) ==> cmd[|fixed|..] == ProfileFlag(profile))
  }

  lemma PrefixOf(a: string, b: string)
    ensures (a + b)[..|a|] == a && (a + b)[|a|..] == b
  {
  }

  /** `if (options.profile) aws += ' --profile ' + options.profile` */
  function WithProfile(fixed: string, profile: Option<string>): (cmd: string)
    ensures FixedThenProfile(cmd, fixed, profile)
  {
    if Truthy(profile) then PrefixOf(fixed, ProfileFlag(profile)); fixed + ProfileFlag(profile) else fixed
  }

  function CreateFunctionCommand(name: string, role: string, profile: Option<string>): (text: string) {
    WithProfile(CreateFunctionBase(name, role), profile)
  }

  function UpdateFunctionCodeCommand(profile: Option<string>): (text: string) {
    WithProfile(UpdateFunctionCodeBase, profile)
  }

  /** The invoke command: fixed text, the profile flag exactly when a profile is
      given, and always the output file last. */
  function InvokeCommand(name: string, payload: string, profile: Option<string>): (cmd: string)
    ensures |cmd| >= |OutFile| + 1 && cmd[|cmd| - |OutFile| - 1..] == " " + OutFile
    ensures FixedThenProfile(cmd[..|cmd| - |OutFile| - 1], InvokeBase(name, payload), profile)
  {
    var head := WithProfile(InvokeBase(name, payload), profile);
    PrefixOf(head, " " + OutFile);
    head + " " + OutFile
  }

  /** The child processes the actions start. */
  datatype Command =
    | NpmInstall
    | ZipBundle
    | CreateFunction(name: string, role: string, profile: Option<string>)
    | UpdateFunctionCode(profile: Option<string>)
    | Invoke(name: string, payload: string, profile: Option<string>)

  /** The shell text of a command. */
  function Line(c: Command): (text: string) {
    match c
    case NpmInstall => NpmInstallCommand
    case ZipBundle => ZipCommand
    case CreateFunction(name, role, profile) => CreateFunctionCommand(name, role, profile)
    case UpdateFunctionCode(profile) => UpdateFunctionCodeCommand(profile)
    case Invoke(name, payload, profile) => InvokeCommand(name, payload, profile)
  }

  // The action bodies build each aws command with `+=`; these are those builders.

  method BuildCreateFunction(name: string, role: string, profile: Option<string>) returns (aws: string)
    ensures aws == Line(CreateFunction(name, role, profile))
  {
    aws := CreateFunctionLead + (name + " ") + CreateFunctionTail(role);
    if Truthy(profile) {
      aws := aws + (" --profile " + profile.value);
    }
  }

  method BuildUpdateFunctionCode(profile: Option<string>) returns (aws: string)
    ensures aws == Line(UpdateFunctionCode(profile))
  {
    aws := UpdateFunctionCodeBase;
    if Truthy(profile) {
      aws := aws + (" --profile " + profile.value);
    }
  }

  method BuildInvoke(name: string, payload: string, profile: Option<string>) returns (aws: string)
    ensures aws == Line(Invoke(name, payload, profile))
  {
    aws := InvokeBase(name, payload);
    if Truthy(profile) {
      aws := aws + (" --profile " + profile.value);
    }
    aws := aws + (" " + OutFile);
  }

  const ConsoleUrlPrefix := "https://console.aws.amazon.com/lambda/home?" + "region=us-east-1#/functions/"
  const ConsoleUrlSuffix := "?tab=eventSources"

  function ConsoleUrl(name: string): (text: string) {
    ConsoleUrlPrefix + Text.EncodeUriComponent(name) + ConsoleUrlSuffix
  }

  /** For a normalised name, the console URL and the create-function command
      carry the very same function name. */
  lemma ConsoleUrlNamesCreatedFunction(rawName: string, role: string, profile: Option<string>)
    ensures var name := Text.Normalize(rawName);
      && ConsoleUrl(name) == ConsoleUrlPrefix + name + ConsoleUrlSuffix
      && var cmd := CreateFunctionCommand(name, role, profile);
         var at := |CreateFunctionLead|;
         cmd[at..at + |name| + 1] == name + " "
  {
    var name := Text.Normalize(rawName);
    Text.EncodeNormalizedName(rawName);
    var cmd := CreateFunctionCommand(name, role, profile);
    var base := CreateFunctionBase(name, role);
    var at := |CreateFunctionLead|;
    assert cmd[..|base|] == base;
    assert base[at..at + |name| + 1] == name + " ";
    assert cmd[at..at + |name| + 1] == base[at..at + |name| + 1];
  }
}
