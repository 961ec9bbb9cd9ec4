# alcl in Dafny

alcl is a small Node.js command-line tool for Alexa skills written as AWS
Lambda functions. It has four actions:

- `init <name> --role <arn> [--profile p]` creates a skeleton project
  (package.json, index.js, .gitignore). It writes three AWS descriptors into
  `aws/` (create-function.json, update-function-code.json, launch.json), runs
  `npm install`, zips the project into `aws/lambda.zip` and creates the Lambda
  function. Then it prints the console URL where the Alexa event source is
  added.
- `setup <name>` writes the descriptors and the archive for an existing
  project.
- `push` rezips the project and updates the function code.
- `test` invokes the function. The function name comes from
  update-function-code.json and the payload from launch.json, with all
  whitespace removed. Then it prints the decoded log and the pretty-printed
  `aws/test.json`.

The model is in seven modules:

- `Options`: the optional value.
- `Text`: the string operations of the actions.
  - skill-name normalisation, `replace(/\W+/g, '')`;
  - payload compaction, the two `replace` calls of `test`;
  - `encodeURIComponent`.
- `Uuid`: the version 4 identifier of `awsConfig`, built from 31 random
  nibbles.
- `Render`: lodash's `_.template` restricted to `${key}` interpolation,
  split into a compile step and an apply step.
- `Commands`:
  - the shell command lines that are built, with their optional
    `--profile` flag;
  - the `Command` datatype naming each child process;
  - the console URL.
- `Pipeline`: a `World` value holding the working directory and the logs.
  - The working directory is a map of files, a set of directories and the
    archive as the map of files it holds.
  - The logs record the issued commands and the console writes.
  - Each action and helper is a function from a `World` to the `World` after
    it plus an outcome (`Completed` or `Stopped(failure)`).
  - The properties are lemmas about these functions.
- `Cli`: a class `Workspace` whose fields are the working directory and the
  logs.
  - Each action is a method that changes the fields step by step, as the
    action body does.
  - Each method's postcondition says that the new state and the outcome are
    those of the matching `Pipeline` function.

## Sources of nondeterminism

Child processes (zip, npm, aws) are not run. Each issued command is appended
to `commands`, and its result is a parameter (`Exec`, `InvokeReply`).
`Math.random()*16|0` is a parameter too, as a sequence of nibbles, and so is
`new Date().toISOString()`. The templates beside the tool are a map. JSON
parsing of the update descriptor and pretty-printing of the output file are
function parameters.

## Where the model follows the code rather than its documentation

- `test` always reads `aws/launch.json`. The code has no `--file` option,
  although its error message mentions `--function-name`.
- A missing `aws/update-function-code.json` or `aws/launch.json` is an
  uncaught `readFileSync` exception in `test`. So is an unparsable update
  descriptor. These stop the action without writing anything to standard
  output (`DescriptorUnreadable`, `PayloadUnreadable`). Only a missing
  `FunctionName` or an empty payload prints the error text there.
- `setup` accepts `--role` but never looks at it.
- In `init` the zip step is a bare `execSync`, so its failure is an uncaught
  exception: nothing is written to standard output. In `push` it goes through
  `exitOnError`, which echoes the command and its output.
- `zip -r` onto an existing `aws/lambda.zip` adds and replaces entries but
  keeps the entries already there (`Rezip`).
- The zip command runs through `/bin/sh`, which expands the unquoted `aws/*`
  before zip sees it. So zip excludes only the non-hidden names directly in
  `aws/`; hidden files there and files in subdirectories of `aws/` are
  archived. When the glob lists nothing, zip receives the pattern itself and
  excludes everything under `aws/`. The zip step models this
  (`ShellBundle`); see "Findings".

## Model

| member | source | states |
|---|---|---|
| Text.Normalize | index.js:19 | the normalised name consists of word characters (`[A-Za-z0-9_]`) only |
| Text.NormalizeCounts | index.js:19 | every word character occurs in the result as often as in the name; no other character occurs |
| Text.NormalizeFixesWordStrings | index.js:19 | normalisation leaves a name unchanged if and only if it already consists of word characters |
| Text.NormalizeIdempotent | index.js:19 | normalising twice is normalising once |
| Text.NormalizeConcat | index.js:19 | normalisation works piecewise, so the kept characters stay in their order |
| Text.NormalizeExample | index.js:63 | the name `My Skill!` becomes `MySkill` |
| Text.NewlinesToSpaces | index.js:110 | same length; every line feed becomes a space and every other character is kept |
| Text.StripSpace | index.js:110 | no ECMAScript whitespace character is left |
| Text.StripNewlinesToSpaces | index.js:110 | turning line feeds into spaces first does not change what stripping whitespace leaves |
| Text.Compact | index.js:110 | the compacted payload has no whitespace and is exactly the payload's non-whitespace characters in order |
| Text.CompactKeepsCharacters | index.js:110 | each non-whitespace character survives as often as it occurs in the payload; whitespace never does |
| Text.CompactConcat | index.js:110 | compaction works piecewise |
| Text.CompactIdempotent | index.js:110 | compacting a compacted payload changes nothing |
| Text.Utf8 | index.js:52 | a code point encodes to one to four bytes, each below 256 |
| Text.EncodeChar | index.js:52 | an unreserved character is kept; any other becomes a `%`-escape of at least three characters |
| Text.EncodeUriComponent | index.js:52 | the encoding is never shorter than the input |
| Text.EncodeIdentityIff | index.js:52 | encodeURIComponent changes nothing if and only if every character is unreserved |
| Text.EncodeNormalizedName | index.js:52 | a normalised skill name passes through encodeURIComponent unchanged |
| Uuid.HexDigit | index.js:148 | `toString(16)` of a nibble is a lower-case hex digit whose value is the nibble |
| Uuid.Variant | index.js:147 | the variant nibble (the two low random bits under the bits `10`) lies in 8..11 and keeps the two low bits of the random nibble |
| Uuid.Fill | index.js:146-149 | the filled template has the template's length |
| Uuid.FillAt | index.js:146-149 | a fixed template character stays; a slot holds the hex digit of the next unused random nibble, with the variant bits on `y` |
| Uuid.Generate | index.js:146-149 | the identifier has the version 4 layout: 36 characters, dashes at 8, 13, 18 and 23, `4` at 14, `8`/`9`/`a`/`b` at 19, lower-case hex elsewhere |
| Uuid.GenerateAt | index.js:146-149 | character k of the identifier is the template character, the variant digit, or the hex digit of random nibble k minus the fixed characters before k |
| Uuid.GenerateInjective | index.js:146-149 | two runs give the same identifier if and only if their random nibbles agree, except the two overwritten bits of the variant nibble |
| Render.Compile | index.js:178 | every compiled reference key is free of `}` and backslash |
| Render.CompileRoundTrip | index.js:178 | compiling loses nothing: the pieces spell out the template again |
| Render.RenderSucceedsIff | index.js:178-179 | rendering succeeds if and only if the map binds every referenced key; otherwise it reports a referenced key that is unbound |
| Render.ApplyReadsOnlyReferences | index.js:179 | two substitution maps that agree on the referenced keys render a template alike |
| Render.RenderEmbedsValues | index.js:178-179 | the value of every referenced key appears in the rendered text |
| Render.RenderLiteral | index.js:178-179 | a template without `${` renders to itself whatever the map |
| Render.RenderSingleReference | index.js:178-179 | the template `${k}` with a non-empty key k renders to the value of k |
| Render.RenderEmptyReference | index.js:178-179 | an empty `${}` renders as nothing, whatever follows it and whatever the map |
| Commands.WithProfile | index.js:45-47 | the command is the fixed text, followed by ` --profile p` exactly when a non-empty profile is given |
| Commands.InvokeCommand | index.js:112-119 | the invoke command is the fixed invoke text, then the profile flag exactly when a profile is given, and always ` aws/test.json` last |
| Commands.BuildCreateFunction | index.js:40-47 | the `+=` construction yields the create-function line of the `CreateFunction` command |
| Commands.BuildUpdateFunctionCode | index.js:81-86 | the `+=` construction yields the update-function-code line of the `UpdateFunctionCode` command |
| Commands.BuildInvoke | index.js:112-119 | the `+=` construction yields the invoke line of the `Invoke` command |
| Commands.ConsoleUrlNamesCreatedFunction | index.js:40-53 | for a normalised name, the printed console URL holds the name unescaped, and so does the create-function command's `--function-name` argument |
| Pipeline.Written | index.js:16-177 | the reference text of each write: every write other than a child's output or an exception's message ends with a line feed |
| Pipeline.EnsureStateDir | index.js:23-25 | the reference definition of the `aws` step: afterwards `aws` exists, at most that directory is added, and nothing else changes |
| Pipeline.CopyTemplate | index.js:174-180 | the reference definition of copyTemplate that Cli.Workspace.CopyTemplate is proved equal to; its effect is stated by Pipeline.CopyTemplateEffect |
| Pipeline.CopyAll | index.js:30-32 | the reference definition of consecutive copyTemplate calls that stop at the first exception; its effect is stated by Pipeline.CopyAllFrame, Pipeline.CopyAllCompletes and Pipeline.CopyAllWrites |
| Pipeline.AwsConfig | index.js:145-161 | the reference definition of awsConfig that Cli.Workspace.AwsConfig is proved equal to; its effect is stated by Pipeline.AwsConfigWritesDescriptors |
| Pipeline.Run | index.js:163-172 | a child process through exitOnError or a bare execSync: the command is logged, files, directories and archive stay, it completes exactly when the child succeeds, a failure stops with that command, and a bare execSync prints nothing |
| Pipeline.Zip | index.js:37 | the zip step: it logs the zip command, leaves the files alone, completes exactly when zip succeeds, and then the working directory is zipped into the previous archive; after a failure the archive is unchanged |
| Pipeline.Skeleton | index.js:26-32 | the reference definition of the skeleton copies; their effect is stated by Pipeline.SkeletonWritesSkeleton |
| Pipeline.Init | index.js:14-55 | the reference definition of `init` that Cli.Workspace.Init is proved equal to; its properties are Pipeline.InitRequiresRole, Pipeline.InitCommands and Pipeline.InitWritesSkeletonAndDescriptors |
| Pipeline.Deploy | index.js:34-54 | the reference definition of the end of `init` that Cli.Workspace.Deploy is proved equal to; its properties are Pipeline.DeployCommands and Pipeline.DeployIssuesPrefix |
| Pipeline.DeployIssuesPrefix | index.js:34-48 | the end of init issues a prefix of npm install, zip, create-function, each only after the previous one succeeded, and all three when it completes |
| Pipeline.Setup | index.js:62-72 | the reference definition of `setup` that Cli.Workspace.Setup is proved equal to; its properties are Pipeline.SetupIssuesOnlyZip and Pipeline.SetupRecordsUpdateDescriptor |
| Pipeline.Push | index.js:78-88 | the reference definition of `push` that Cli.Workspace.Push is proved equal to; its properties are Pipeline.PushFailsFast and Pipeline.PushKeepsTestInvocation |
| Pipeline.Test | index.js:94-119 | the reference definition of `test` that Cli.Workspace.Test is proved equal to; its properties are Pipeline.TestInvokesOnlyWithNameAndPayload and Pipeline.TestPayloadIsCompact |
| Pipeline.Receive | index.js:120-140 | the reference definition of the try block of `test` after the invoke, with the catch block writing `e.message`; its properties are Pipeline.ReceiveEffect |
| Pipeline.ReadLog | index.js:128-131 | the reference definition of decoding and printing the log, or writing the message of the exception the decoding raised |
| Pipeline.ShowOutput | index.js:133-139 | the reference definition of reading and printing aws/test.json, or writing the message of the exception readFileSync or JSON.parse raised |
| Commands.CreateFunctionCommand | index.js:40-47 | the reference text of the create-function command; its shape is stated by Commands.WithProfile and Commands.BuildCreateFunction |
| Commands.UpdateFunctionCodeCommand | index.js:81-86 | the reference text of the update-function-code command; its shape is stated by Commands.WithProfile and Commands.BuildUpdateFunctionCode |
| Commands.ConsoleUrl | index.js:50-53 | the reference text of the printed console URL; its property is Commands.ConsoleUrlNamesCreatedFunction |
| Pipeline.ShellBundle | index.js:37 | zip takes every file outside `aws/` unchanged, only files of the working directory, never a non-hidden file directly in `aws/`, and nothing under `aws/` when the glob lists nothing |
| Pipeline.StateFilesArchivedAsWritten | index.js:37 | once `aws/launch.json` exists, a file under `aws/` is archived exactly when it is hidden or in a subdirectory, and the intended archive holds none of them |
| Pipeline.Bundle | index.js:37 | the intended archive (pattern quoted) holds exactly the files outside `aws/`, unchanged |
| Pipeline.Rezip | index.js:80 | after zipping, the archive holds every file outside `aws/` as it is now and every older entry; each entry is the file zip took, or else the older entry |
| Pipeline.CopyTemplateEffect | index.js:174-180 | copyTemplate changes only the console and, on success, the one file dest+filename, which then holds the rendered template; it completes if and only if the template exists, renders and is writable |
| Pipeline.CopyAllFrame | index.js:158-160 | consecutive copies change no directory, archive or command, change only their target files, and stop only for a copy failure |
| Pipeline.CopyAllCompletes | index.js:158-160 | consecutive copies complete if and only if every template exists, renders and has a writable destination |
| Pipeline.CopyAllWrites | index.js:158-160 | after completed copies, every target holds its template rendered with the map |
| Pipeline.AwsConfigWritesDescriptors | index.js:145-161 | awsConfig writes only the three descriptors and issues no command; on completion each descriptor holds its template rendered with the one map of the run |
| Pipeline.DescriptorsShareRunValues | index.js:151-160 | every descriptor that references `uuid`, `timestamp` or `skillName` contains the run's single identifier, timestamp or name |
| Pipeline.InitRequiresRole | index.js:15-18 | init stops for a missing role if and only if no role is given, and then only prints the message |
| Pipeline.SkeletonWritesSkeleton | index.js:26-32 | the skeleton step writes only package.json, index.js and .gitignore; on completion each holds its template rendered with the skill name |
| Pipeline.DeployCommands | index.js:34-54 | the end of init issues npm install, zip and create-function in order, each only after the previous one succeeded, and completes if and only if all three succeed |
| Pipeline.StagesIssueNoCommand | index.js:30-33 | the skeleton and descriptor steps issue no command and stop only for a copy failure |
| Pipeline.InitCommands | index.js:14-55 | with a role, init issues a prefix of npm install, zip, create-function for the normalised name, each only after the previous one succeeded, and all three when it completes |
| Pipeline.InitWritesSkeletonAndDescriptors | index.js:14-55 | init writes no file besides the three skeleton files and the three descriptors |
| Pipeline.SetupIssuesOnlyZip | index.js:62-72 | setup issues at most the zip command and writes only the descriptors; on completion the working directory is zipped into the previous archive and the descriptors are rendered for the normalised name |
| Pipeline.SetupNormalizesName | index.js:62-68 | `setup "My Skill!"` renders every descriptor with skillName `MySkill` |
| Pipeline.PushFailsFast | index.js:78-88 | push issues update-function-code only after the zip succeeded, leaves the files alone, and completes if and only if both commands succeed |
| Pipeline.TestInvokesOnlyWithNameAndPayload | index.js:94-119 | test issues exactly the one invoke, and only when the update descriptor names a function and the payload is not empty; it writes no file besides aws/test.json |
| Pipeline.ReceiveEffect | index.js:120-140 | after the invoke, test issues nothing more and writes at most aws/test.json; a failed invoke stops it; it completes if and only if a log came back and the output file exists and parses; when it stops, the last thing written is the message of the exception |
| Pipeline.SetupRecordsUpdateDescriptor | index.js:62-68 | a completed setup leaves `aws/update-function-code.json` holding its template rendered with the normalised name, the run's uuid and timestamp |
| Pipeline.SetupThenTestInvokesRecordedName | index.js:62-119 | after setup, test invokes the function named in the update descriptor setup rendered, which contains the normalised name when its template references `skillName` |
| Pipeline.PushKeepsTestInvocation | index.js:78-113 | whether push succeeds or fails, a later test issues the same invoke as before it, so a push between setup and test changes nothing of the previous row |
| Pipeline.TestPayloadIsCompact | index.js:105-114 | the invoke names the function of the update descriptor, and its payload is launch.json's non-whitespace characters in order |
| Cli.Workspace.EnsureStateDir | index.js:23-25 | `aws` is created exactly when neither a file nor a directory of that name exists |
| Cli.Workspace.CopyTemplate | index.js:174-180 | the new state and outcome are those of one copyTemplate call |
| Cli.Workspace.CopyThree | index.js:30-32 | three copyTemplate calls in a row leave the state of consecutive copies |
| Cli.Workspace.AwsConfig | index.js:145-161 | the new state and outcome are those of awsConfig with the identifier of the given nibbles |
| Cli.Workspace.ExitOnError | index.js:163-172 | the command is echoed and logged, then its output or error is printed; a failure stops the action |
| Cli.Workspace.Zip | index.js:37 | the zip command is logged, echoed only in push, and on success the archive is rezipped |
| Cli.Workspace.Init | index.js:14-55 | the new state and outcome are those of the init action |
| Cli.Workspace.Deploy | index.js:34-54 | the new state and outcome are those of the end of init |
| Cli.Workspace.Setup | index.js:62-72 | the new state and outcome are those of the setup action |
| Cli.Workspace.Push | index.js:78-88 | the new state and outcome are those of the push action |
| Cli.Workspace.Test | index.js:94-119 | the new state and outcome are those of the test action |
| Cli.Workspace.Receive | index.js:120-140 | the new state and outcome are those of the try block of test |
| Cli.Workspace.ReadLog | index.js:128-131 | the new state and outcome are those of printing the decoded log and the output file |
| Cli.Workspace.ShowOutput | index.js:133-139 | the new state and outcome are those of reading and printing aws/test.json, or of writing the message of the exception that reading or parsing it raised |

## Left out

- Child processes (npm, zip, aws) are not executed: each is logged as a `Command` and its result is a parameter. npm's changes to node_modules and package.json are not modelled.
- Command-line parsing by commander is not modelled. An option is an `Option<string>`. A bare `--profile`, which commander turns into `true`, is the input `Some("true")`: string concatenation turns `true` into the text `true`, so the command ends with ` --profile true`.
- The process's working directory is not modelled: paths are relative, so the printed copy notice shows `dest+filename` without the absolute prefix.
- Within `_.template`, only `${key}` interpolation with a verbatim key is modelled. Evaluation of `<% %>` blocks, escaping and JavaScript expressions inside `${}` are left out. templates/index.js is not part of this model.
- JSON.parse, base64 decoding and JSON.stringify are parameters: `parse` yields the function name; the invoke reply carries the decoded log or the message of the exception its parsing or decoding raised; `pretty` yields the printed output or the message of the exception JSON.parse raised. The `FunctionName` falsy cases (absent, null, empty) all become the empty name.
- Pipeline.Receive: the catch block of `test` writes `e.message` (`ErrorMessage`) for every exception of the try block. Its second write passes the Error object `e` itself to `process.stdout.write`, which accepts only a string, a Buffer or a Uint8Array; Node rejects it with a TypeError before anything is written, so nothing of `e` reaches standard output and the `process.exit()` after it is not reached. The model writes nothing for it and stops the action; the TypeError's report goes to standard error, which is not modelled. The texts of the messages of JSON.parse and of the base64 decoder are inputs; a missing aws/test.json gives the ENOENT message of readFileSync. Every failure after the invoke was issued, other than the invoke itself failing, is reported as `InvalidRemoteResponse`.
- Cli.Workspace.ExitOnError: the catch block writes `e.message`; its second write, of the Error object `e`, throws a TypeError before writing anything (as for Pipeline.Receive), and that TypeError leaves exitOnError and ends the action. The model writes nothing for it and stops the action; only the report on standard error is not modelled.
- Standard error is not modelled: neither Node's report of an uncaught exception nor the child processes' standard error, which `execSync` passes through.
- Render.Apply: the compiled template looks a name up inside `with (obj)`, so a key the map does not bind can still resolve, through the map's prototype (`constructor`, `toString`, `hasOwnProperty`), the compiled function's own scope (`obj`, `_`, `__p`, `__t`) or the globals (`JSON`, `process`, `undefined`, `NaN`); lodash then renders that value instead of throwing. The model reports every key missing from the map as `Unbound`, so the "only if" half of Render.RenderSucceedsIff is stronger than lodash for such keys. Only a name that resolves nowhere throws a ReferenceError. The templates of this tool reference only bound keys.
- Render.Compile: a key containing a backslash escape, such as `${a\}b}`, is one interpolation for lodash, whose expression does not compile, so `_.template` throws; the model reads such a token as literal text. Any other JavaScript expression inside `${}` (spaces around the key, a property access) is read as a verbatim key.
- Pipeline.ZipExcludes: a name listed by the glob that itself contains zip wildcard characters (`*`, `?`, `[`) is taken as a name, not as a pattern.
- `process.exit()` is modelled as the action stopping with the failure; uncaught exceptions, including the TypeError of the two catch blocks, stop the action the same way.
- Uuid.Fill: a slot past the end of the nibble sequence takes 0. The generator always supplies 31 nibbles, so this case is never reached.
- Text.EncodeUriComponent: the contract states only the length bound. The identity case is EncodeIdentityIff, and the escaped form of a single character is EncodeChar. Lone UTF-16 surrogates, which make encodeURIComponent throw, cannot occur in a Dafny `char` sequence.
- Commands.BuildCreateFunction, Commands.BuildUpdateFunctionCode, Commands.BuildInvoke: the Cli methods log the `Command` value rather than its text, so they do not call these builders.
- Concurrency, file permissions beyond "the destination directory exists and the path is not a directory", and file-system errors other than those are not modelled.

## Findings

| source | as written | input that shows it | evidently intended | confidence | as-written member | corrected member |
|---|---|---|---|---|---|---|
| index.js:37 | `zip -r aws/lambda.zip . -x aws/*` leaves `aws/*` unquoted; the shell expands it, so zip excludes only the non-hidden names directly in `aws/` | the files `index.js`, `aws/launch.json` and `aws/.DS_Store`: the archive holds `aws/.DS_Store` | the archive holds nothing under `aws/` (the pattern quoted so zip matches it itself) | medium, not executed | Pipeline.StateFilesArchivedAsWritten | Pipeline.Bundle |
