# gitlab-emulator, modelled in Dafny

This project models the core of gitlab-emulator, a tool that runs GitLab CI
pipelines on a developer's machine, together with its two pipeline simulators.
One Dafny module stands for each source file it models:

- **Configuration resolution** (`ConfigLoader`, `Yaml`): `include` handling,
  `extends` inheritance with its acyclicity and job ordering, validation of each
  job's stage, `needs` and artifacts (`dependencies` is not checked), and which
  job file each job came from. `LegacyConfigLoader`
  models the first-generation loader.
- **Rules expressions** (`RulesLexer`, `RulesSyntax`): the two-state tokenizer for
  `rules: if:` texts and the hand-written parser that builds the expression tree.
- **Sub-pipeline generation** (`Generator`): the requested jobs and everything they
  need, with the keys a child pipeline cannot carry removed.
- **Running jobs** (`Runner`, `LegacyRunner`): execution order with and without
  `needs`, the shared set of completed jobs, `--var` assignments and parallel indices.
- **Smaller parsers and helpers**: `$NAME` expansion (`Variables`), Docker resource
  names (`Resnamer`), the `glp` argument validators (`GlpTypes`), path slugs
  (`Helpers`), `gle-config` contexts and variables (`ConfigTool`, `UserConfig`),
  the `--from` pipeline argument (`GitlabClientApi`), service and environment
  handling of the Docker runner (`Docker`), and the trace uploader and secret
  masking of the standalone runner (`CiRunner`).
- **Bamboo plans** (`BambooDocs`, `BambooLoader`): flattening of `!include`
  document lists and loading of plans, stages and jobs.
- **The pipeline designer** (`DesignerSimulator`, `DesignerAnalysis`): a tick
  simulator in which a task waits only for a runner of matching tags with free
  concurrency (its readiness test always passes, so its needs never hold it back), and the greedy capacity search that raises runner
  concurrency until a throughput target is met.
- **The GitLab simulator** (`GitlabSim`, `GitlabSimUtils`): an event-driven
  scheduler of jobs on tagged runners, and its template generators.

`Wrappers` (Option and Result) and `Text` (the Python string operations the
sources rely on) are shared by the others. Where the source updates objects in
place (the designer's `SimulatedResources`, the event simulator, the trace
uploader, the Loader, the Docker tool), the model is a class whose methods are
proved against specification functions; pure code is modelled as functions and
lemmas.

## Model

| member | source | states |
|---|---|---|
| Variables.WordRun | emulator/gitlabemu/variables.py:5 | the greedy `\w+` run: every character in it is a word character, and the character after it is not |
| Variables.FirstVar | emulator/gitlabemu/variables.py:10 | `search` gives no position exactly when the text holds no `$\w+`; otherwise it gives the leftmost position where a match starts |
| Variables.FirstName | emulator/gitlabemu/variables.py:12-14 | the name of the first match is non-empty and all word characters, and it is missing exactly when nothing matches |
| Variables.Lookup | emulator/gitlabemu/variables.py:15 | `variables.get(name, "")`: the mapped value when the name is present, the empty text otherwise |
| Variables.Consumed | emulator/gitlabemu/variables.py:16 | consuming a template token fails with `re.error` exactly when what is left is a lone backslash, read ahead |
| Variables.AddGroup | emulator/gitlabemu/variables.py:16 | a group reference is accepted exactly when the pattern has that group (0 or 1); otherwise `re.error` |
| Variables.CloseAt | emulator/gitlabemu/variables.py:16 | the `>` closing a group name is found token by token, and is a `>` character |
| Variables.GroupRef | emulator/gitlabemu/variables.py:16 | `\g<...>` yields only references to existing groups; IndexError only for a `<`-opened name |
| Variables.Octal0 | emulator/gitlabemu/variables.py:16 | `\0` with up to two more octal digits yields one character and never a group reference; its only failure is `re.error` |
| Variables.Numbered | emulator/gitlabemu/variables.py:16 | a numbered escape yields a character or a reference to an existing group; its only failure is `re.error` |
| Variables.Step | emulator/gitlabemu/variables.py:16 | one template token is consumed, strictly shortening the text, and a plain character stands for itself |
| Variables.ParseRest | emulator/gitlabemu/variables.py:16 | a parsed template refers only to groups the pattern has |
| Variables.ParseTemplate | emulator/gitlabemu/variables.py:16 | the same for the whole value, and a lone backslash is refused |
| Variables.Lits | emulator/gitlabemu/variables.py:16 | a text taken literally has one character piece per character and no group reference |
| Variables.SubVars | emulator/gitlabemu/variables.py:16 | a text without a match is unchanged by the substitution |
| Variables.ExpandVariable | emulator/gitlabemu/variables.py:8-18 | a text without `$NAME` comes back unchanged; otherwise it fails exactly when the looked-up value is not a valid template, with that fault, and no `$NAME` survives when the template has no group reference and a clean text |
| Variables.PlainTemplate | emulator/gitlabemu/variables.py:16 | a value without a backslash parses to its own characters |
| Variables.ExpandLits | emulator/gitlabemu/variables.py:16 | a literal template expands to its text, whatever the match |
| Variables.ExpandNoGroup | emulator/gitlabemu/variables.py:16 | a template without group references gives the same text for every match |
| Variables.Escaped | emulator/gitlabemu/variables.py:16 | doubling backslashes never yields a lone backslash, and an escaped text starts with a doubled backslash when it starts with one |
| Variables.EscapedRoundTrip | emulator/gitlabemu/variables.py:16 | a text with its backslashes doubled parses back to the text itself |
| Variables.PlainNotLone | emulator/gitlabemu/variables.py:16 | a backslash-free text in front of a valid rest is never a lone backslash |
| Variables.ParsePlainHead | emulator/gitlabemu/variables.py:16 | a backslash-free prefix parses to its own characters in front of the rest's parse, or the rest's fault |
| Variables.TemplateTab | emulator/gitlabemu/variables.py:16 | `C:\temp` as a template holds a tab where `\t` was |
| Variables.TemplateBadEscape | emulator/gitlabemu/variables.py:16 | `C:\Users` as a template raises `re.error` for the unknown escape `\U` |
| Variables.TemplateTrailingBackslash | emulator/gitlabemu/variables.py:16 | a template ending in a lone backslash raises `re.error` |
| Variables.TemplateSecondGroup | emulator/gitlabemu/variables.py:16 | `\2` raises `re.error`, because the pattern has one group |
| Variables.TemplateNamedGroup | emulator/gitlabemu/variables.py:16 | `\g<name>` raises IndexError, because the pattern names no group |
| Variables.TemplateBackrefs | emulator/gitlabemu/variables.py:16 | `\1` and `\g<0>` parse to a reference to the whole match |
| Variables.SubVarsGroupOnly | emulator/gitlabemu/variables.py:16 | a template that is one group reference gives every text back unchanged |
| Variables.BackrefKeepsText | emulator/gitlabemu/variables.py:8-18 | with the first variable's value `\1` or `\g<0>`, expansion returns the text unchanged, `$NAME` included |
| Variables.BackrefKeepsVariable | emulator/gitlabemu/variables.py:8-18 | `$A` with A set to `\1` expands to `$A` |
| Variables.SubVarsOne | emulator/gitlabemu/variables.py:16 | a text that is exactly one match becomes the template's text for it |
| Variables.ExpandOne | emulator/gitlabemu/variables.py:8-18 | `$NAME` alone expands to the template of NAME's value for that match, or the template's fault |
| Variables.TabInValue | emulator/gitlabemu/variables.py:8-18 | `$P` with P set to `C:\temp` expands to `C:`, a tab, and `emp` |
| Variables.NoVarAppend | emulator/gitlabemu/variables.py:5 | two texts without a match make none when joined, unless a `$` at the end of the first meets a word character at the start of the second |
| Variables.ExpandHead | emulator/gitlabemu/variables.py:16 | a template starting with a group reference or a non-word character expands, for a match, to a text that is empty only for the empty template and never starts with a word character |
| Variables.SubVarsHead | emulator/gitlabemu/variables.py:16 | substitution does not create a leading word character when neither the text nor the template starts with one |
| Variables.SubVarsClean | emulator/gitlabemu/variables.py:16 | substitution leaves no match behind when the template has no group reference and its text has no match and no leading word character |
| Variables.SubVarsCleanWhen | emulator/gitlabemu/variables.py:16 | the same fact, stated as an implication over all texts and templates |
| Variables.DollarBeforeMatch | emulator/gitlabemu/variables.py:8-18 | `$$a` with `a` set to `b` expands to `$b`, which is itself a match: expansion is not idempotent |
| Variables.OneValueForAll | emulator/gitlabemu/variables.py:12-16 | in `$A<sep>$B` both matches are replaced by the template of A's value, each expanded for its own match, or the template's fault is raised |
| Variables.OneValueForAllPlain | emulator/gitlabemu/variables.py:12-16 | with a backslash-free value of A, `$A<sep>$B` becomes that value, the separator, and that value |
| Variables.FirstNameOf | emulator/gitlabemu/variables.py:12-14 | the name of a leading match is its whole word |
| Variables.SubVarsTwo | emulator/gitlabemu/variables.py:16 | both matches of `$A<sep>$B` give way to the template's text for each match |
| Variables.SubVarsMatch | emulator/gitlabemu/variables.py:16 | a match followed by a non-word character is replaced by the template's text for that match, and the rest is processed after it |
| Variables.WordRunOf | emulator/gitlabemu/variables.py:5 | the greedy run over a word followed by a non-word character is exactly that word |
| Variables.SubVarsPlain | emulator/gitlabemu/variables.py:16 | a part without `$` passes through unchanged before the rest |
| Resnamer.KindOrDefault | emulator/gitlabemu/resnamer.py:11-12 | a missing or empty kind becomes `docker`, so the kind used is never empty |
| Resnamer.RandomPart | emulator/gitlabemu/resnamer.py:13 | the random part is a prefix of the UUID text, seven characters long when the text has at least seven |
| Resnamer.GenerateResourceName | emulator/gitlabemu/resnamer.py:9-14 | the name starts with `gle-<kind>-` and ends with `-<random part>` |
| Resnamer.IsGleResource | emulator/gitlabemu/resnamer.py:17-26 | a name of exactly four `-` parts led by `gle` gives `int()` of its third part, or ValueError when that part is not a number; every other name, the empty one included, gives None |
| Resnamer.FourParts | emulator/gitlabemu/resnamer.py:17-26 | a four-part name led by `gle` is read through its third part |
| Resnamer.ResourceNameRoundTrip | emulator/gitlabemu/resnamer.py:9-26 | a generated name is recognised and gives back the process id, when neither the kind nor the random part holds a `-` |
| Resnamer.DashedKindNotRecognised | emulator/gitlabemu/resnamer.py:9-26 | a kind holding `-` makes a name with more than four parts, which is not recognised |
| Resnamer.NonNumericPid | emulator/gitlabemu/resnamer.py:24 | a four-part `gle-` name whose third part begins with a letter (`gle-a-b-c`) makes `int()` raise ValueError |
| GlpTypes.NameValuePair | emulator/gitlabemu/glp/types.py:6-13 | accepted exactly when the text holds one `=`; the name and value are then the two sides, neither holding `=`; otherwise the error is `expected X=Y` |
| GlpTypes.NameValueRoundTrip | emulator/gitlabemu/glp/types.py:6-13 | a name and value without `=` are read back from `name=value` |
| GlpTypes.NameValueRefused | emulator/gitlabemu/glp/types.py:8-13 | `foo` and `a=b=c` are refused |
| GlpTypes.NameValueEmptyParts | emulator/gitlabemu/glp/types.py:8-11 | `bar=` and `=foo` are accepted, with an empty value and an empty name |
| GlpTypes.Match | emulator/gitlabemu/glp/types.py:16-27 | accepted exactly when the pair parses, its name is `status` or `ref` and its value is not empty; an unknown name is refused with a message naming it |
| GlpTypes.MatchEmptyValue | emulator/gitlabemu/glp/types.py:23-27 | an empty value is refused with the message for its name |
| GlpTypes.MatchUnknownName | emulator/gitlabemu/glp/types.py:21-22 | a name other than `status` and `ref`, as in `cat=dog`, is refused naming it |
| Helpers.PathSlug | emulator/gitlabemu/helpers.py:213-215 | each character outside `[A-Za-z0-9.-]` becomes `_` and every other character stays where it is, so the length is kept |
| Helpers.SlugAlphabet | emulator/gitlabemu/helpers.py:215 | a slug holds only kept characters and `_` |
| Helpers.SlugIdempotent | emulator/gitlabemu/helpers.py:215 | making a slug of a slug changes nothing |
| Helpers.SlugAppend | emulator/gitlabemu/helpers.py:215 | the slug of a joined text is the join of the slugs |
| Helpers.SlugExample | emulator/gitlabemu/helpers.py:213-215 | `Foo/Bar 123` becomes `Foo_Bar_123` |
| Helpers.SlugPieces | emulator/gitlabemu/helpers.py:215 | the three pieces of that example, each on its own |
| ConfigTool.SensitiveVarname | emulator/gitlabemu/configtool.py:44-48 | true exactly when the name contains `PASSWORD`, `TOKEN` or `PRIVATE` |
| ConfigTool.FirstContained | emulator/gitlabemu/configtool.py:45-47 | the loop finds nothing exactly when no mark is in the name; what it finds is a mark contained in the name |
| ConfigTool.VarLine | emulator/gitlabemu/configtool.py:53-56 | a sensitive name's line shows the mask instead of the value; any other line shows `NAME=VALUE` |
| ConfigTool.SensitiveLines | emulator/gitlabemu/configtool.py:51-56 | one line per variable, in sorted name order, each the variable's own line |
| ConfigTool.SensitiveLinesCover | emulator/gitlabemu/configtool.py:51-56 | the names listed are sorted and are exactly the variables, and every variable's line is printed |
| ConfigTool.SecretMasked | emulator/gitlabemu/configtool.py:53-54 | a secret value never shows: its line is the name and the mask |
| ConfigTool.TrimQuotes | emulator/gitlabemu/configtool.py:59-65 | a text starting and ending with the same quote loses exactly those two characters; any other text, the empty one included, is unchanged |
| ConfigTool.TrimQuotesRoundTrip | emulator/gitlabemu/configtool.py:59-65 | quoting a text and trimming gives the text back |
| ConfigTool.TrimQuotesKeeps | emulator/gitlabemu/configtool.py:61-63 | mismatched or missing quotes are kept, and the empty text is unchanged |
| ConfigTool.SetContextCmd | emulator/gitlabemu/configtool.py:31-41 | the name becomes current, and a missing context of that name is created empty; existing contexts are unchanged |
| ConfigTool.UpdateVars | emulator/gitlabemu/configtool.py:78-89 | split at the first `=`: an empty value removes the name (nothing changes when it is unset); any other value is stored with its quotes trimmed |
| ConfigTool.SetThenUnset | emulator/gitlabemu/configtool.py:78-89 | setting a name and then unsetting it leaves the name unset and every other variable as before |
| ConfigTool.QuotedValueStored | emulator/gitlabemu/configtool.py:86-89 | a quoted value is stored without its quotes, so `NAME=""` stores the empty text |
| ConfigTool.VarsCmd | emulator/gitlabemu/configtool.py:68-96 | lists, sets or unsets, or shows one variable of the current context's local or docker set; a missing current context is a KeyError and changes nothing |
| UserConfig.GetCurrentUserContext | emulator/gitlabemu/userconfig.py:75-82 | fatal exactly when the environment names `current_context`; otherwise the environment value wins, then the file's `current_context`, then `emulator` |
| UserConfig.GetUserContexts | emulator/gitlabemu/userconfig.py:85-90 | sorted; always holds `emulator` and never `current_context`; exactly the other top-level keys plus `emulator`, each once |
| UserConfig.ContextsWithEmulator | emulator/gitlabemu/userconfig.py:85-90 | the list of contexts is the same whether or not the file already records `emulator` |
| UserConfig.ContextData | emulator/gitlabemu/userconfig.py:103 | `cfg.get(context, {})`: the named context's data, an empty mapping when there is none or the name is another hashable non-string, and TypeError exactly when the name is a list or a mapping |
| UserConfig.GetUserConfigValue | emulator/gitlabemu/userconfig.py:93-110 | `default` when the current context or section is missing or empty; the whole section when no name is given; otherwise the named setting or `default`; a current context that is a list or a mapping raises TypeError, and a context or section that is not a mapping raises AttributeError |
| UserConfig.UnhashableContext | emulator/gitlabemu/userconfig.py:102-103 | a `current_context` entry that is a list or a mapping makes every read raise TypeError |
| UserConfig.ContextName | emulator/gitlabemu/userconfig.py:119-120 | `default` and `emulator` both mean `emulator`; any other name is kept |
| UserConfig.SetContext | emulator/gitlabemu/userconfig.py:113-127 | `current_context` is refused and nothing changes; otherwise the chosen name is returned and the data becomes the set-context result |
| UserConfig.AfterSetContext | emulator/gitlabemu/userconfig.py:122-125 | the chosen context exists and is recorded as `current_context` |
| UserConfig.SetContextThenCurrent | emulator/gitlabemu/userconfig.py:75-127 | after `set_context`, with no environment override, the chosen context is current and listed, and every other context reads as before |
| UserConfig.SetContextKeepsSettings | emulator/gitlabemu/userconfig.py:93-127 | an existing context keeps its settings through `set_context`: reading a setting afterwards finds what it held |
| UserConfig.AfterOverride | emulator/gitlabemu/userconfig.py:69-72 | the section exists, is a mapping, and holds the new value under the name |
| UserConfig.OverrideUserConfigValue | emulator/gitlabemu/userconfig.py:69-72 | creates a missing section and sets the one key; a section that is not a mapping raises TypeError and nothing changes |
| UserConfig.OverrideOnlyThatKey | emulator/gitlabemu/userconfig.py:69-72 | every other section, and every other key of the section, reads as before |
| UserConfig.OverrideWellFormed | emulator/gitlabemu/userconfig.py:69-72 | overriding introduces no repeated key, at the top level or in the section |
| GitlabClientApi.PathPart | emulator/gitlabemu/gitlab_client_api.py:112-118 | what is left for the path: the whole argument when numeric, nothing when preferring git references, otherwise the text before the last `=` |
| GitlabClientApi.ParseFromArg | emulator/gitlabemu/gitlab_client_api.py:102-133 | digits give only a pipeline; preferring references gives only `gitref`; otherwise `gitref` is set exactly when there is an `=`, and is the text after the last one; server and project are set together, exactly when the path has more than two `/`-parts, the server being the first part |
| GitlabClientApi.NotNumeric | emulator/gitlabemu/gitlab_client_api.py:112 | a text with a non-digit is not numeric |
| GitlabClientApi.ParseLongPathPipeline | emulator/gitlabemu/gitlab_client_api.py:120-126 | a path of more than two parts ending in a number: server is the first part, project the middle parts, pipeline the last |
| GitlabClientApi.ParseLongPathRef | emulator/gitlabemu/gitlab_client_api.py:117-128 | a path of more than two parts not ending in a number: server is the first part, project all the others, `gitref` after the `=` |
| GitlabClientApi.PipelinePathRoundTrip | emulator/gitlabemu/gitlab_client_api.py:104-126 | `server/group/project/1234` names pipeline 1234 of `group/project` on `server` |
| GitlabClientApi.GitrefPathRoundTrip | emulator/gitlabemu/gitlab_client_api.py:106-128 | `server/group/project=ref` names reference `ref` of `group/project` on `server` |
| GitlabClientApi.TwoPartPath | emulator/gitlabemu/gitlab_client_api.py:120-122 | a path of only two parts sets neither server nor project |
| GitlabClientApi.GitrefOnly | emulator/gitlabemu/gitlab_client_api.py:107-118 | `=ref` names only a git reference |
| GitlabClientApi.Attribs | emulator/gitlabemu/gitlab_client_api.py:26-34 | one item each for a set server, a set project, and the git reference or else the pipeline id; server first, the reference or id last |
| GitlabClientApi.Describe | emulator/gitlabemu/gitlab_client_api.py:24-36 | the description always starts with `Pipeline ` |
| GitlabClientApi.DescribePipelinePath | emulator/gitlabemu/gitlab_client_api.py:24-36 | a pipeline named by a full path describes itself by server, project and id |
| GitlabClientApi.DescribeFull | emulator/gitlabemu/gitlab_client_api.py:24-36 | an identity with server, project and id lists all three, in that order |
| Docker.ServiceItem | emulator/gitlabemu/docker.py:418-432 | fails the assertion exactly for a mapping without `name`; a string or a mapping gives a service definition, and any other entry gives nothing |
| Docker.ServiceDefs | emulator/gitlabemu/docker.py:418-434 | fails exactly when some mapping entry lacks `name`; otherwise one definition per string or mapping entry, each a valid definition |
| Docker.ServiceDefsAppend | emulator/gitlabemu/docker.py:416-434 | the definitions of two lists joined are the definitions of the first followed by those of the second, and succeed exactly when both do |
| Docker.ServiceDefsSnoc | emulator/gitlabemu/docker.py:418-432 | one more entry adds its definition, if any, at the end |
| Docker.NamesBecomeDefs | emulator/gitlabemu/docker.py:422-423 | a list of service names becomes one `{name: ...}` mapping per name, in order |
| Docker.ConcatItems | emulator/gitlabemu/docker.py:416 | two lists join in order; only two lists or two strings can be added and iterated |
| Docker.ServiceList | emulator/gitlabemu/docker.py:407-416 | no services unless an `image` is set at the top level or in the job; then the top-level services followed by the job's own; a missing job raises TypeError |
| Docker.GetServices | emulator/gitlabemu/docker.py:400-434 | the service definitions of the combined list, or the error of building it |
| Docker.CollectDefs | emulator/gitlabemu/docker.py:418-434 | the loop keeps one definition per usable entry, in order |
| Docker.GlobalThenJob | emulator/gitlabemu/docker.py:412-434 | with an image, the definitions are those of the top-level services followed by those of the job's own |
| Docker.EnvGet | emulator/gitlabemu/docker.py:100 | a name reads a value exactly when it is set |
| Docker.EnvSet | emulator/gitlabemu/docker.py:57 | setting an existing name keeps the size; a new name adds one |
| Docker.EnvSetFacts | emulator/gitlabemu/docker.py:56-57 | after setting, the name reads the new value, every other name reads as before, and an existing name keeps its place while a new one goes last |
| Docker.EnvArg | emulator/gitlabemu/docker.py:101-104 | `NAME=VALUE`, or `NAME` alone when the value is None |
| Docker.EnvArgs | emulator/gitlabemu/docker.py:97-105 | two arguments per variable |
| Docker.EnvArgsAt | emulator/gitlabemu/docker.py:99-104 | each variable gives `-e` followed by its argument, in the environment's order |
| Docker.EnvArgsAppend | emulator/gitlabemu/docker.py:99-104 | the arguments of two environments joined are those of the first followed by those of the second |
| Docker.NormaliseVolume | emulator/gitlabemu/docker.py:114-116 | a volume ending in `:ro` or `:rw` is unchanged, any other gets `:rw` appended, so every result ends with a mode |
| Docker.NormaliseIdempotent | emulator/gitlabemu/docker.py:114-116 | normalising twice is normalising once |
| Docker.DockerTool.AddVolume | emulator/gitlabemu/docker.py:53-54 | appends exactly `outside:inside` and leaves the environment alone |
| Docker.DockerTool.AddEnv | emulator/gitlabemu/docker.py:56-57 | sets exactly one variable: the name reads the new value and every other name reads as before; volumes are unchanged |
| Docker.DockerTool.GetEnvs | emulator/gitlabemu/docker.py:97-105 | the command line is the `-e` arguments of the environment, in order |
| Docker.DockerTool.RunVolumes | emulator/gitlabemu/docker.py:112-117 | one entry per volume, each the volume with its mode |
| Docker.AddEnvArgs | emulator/gitlabemu/docker.py:97-105 | a new variable adds its `-e` pair at the end; an existing one keeps the length |
| Docker.EnvSetNew | emulator/gitlabemu/docker.py:57 | a new name is appended last |
| CiRunner.GetArch | emulator/gitlabemu/cirunner/runner.py:29-33 | `x86_64` is reported as `amd64`; every other machine name is passed through |
| CiRunner.GetArchIdempotent | emulator/gitlabemu/cirunner/runner.py:29-33 | reporting an already reported name again changes nothing |
| CiRunner.MaskAll | emulator/gitlabemu/cirunner/runner.py:74-75 | with nothing to mask the data is unchanged |
| CiRunner.SkipStars | emulator/gitlabemu/cirunner/runner.py:75 | stars in front of a text cannot start an occurrence of a token that does not start with a star |
| CiRunner.PrefixBack | emulator/gitlabemu/cirunner/runner.py:75 | a starless text at the front of a replacement's output was at the front of its input |
| CiRunner.ReplaceKeepsAbsent | emulator/gitlabemu/cirunner/runner.py:75 | replacing anything by stars does not make an absent starless secret appear |
| CiRunner.StartsAfterHead | emulator/gitlabemu/cirunner/runner.py:75 | with an empty needle, the text's head followed by the rest's replacement does not start with a starless token the text does not start with |
| CiRunner.DropKeepsAbsent | emulator/gitlabemu/cirunner/runner.py:75 | dropping a prefix cannot make an occurrence appear |
| CiRunner.MaskRemoves | emulator/gitlabemu/cirunner/runner.py:75 | replacing a non-empty starless secret by stars leaves no occurrence of it |
| CiRunner.MaskAllKeepsAbsent | emulator/gitlabemu/cirunner/runner.py:74-75 | masking further strings keeps an absent secret absent |
| CiRunner.MaskHides | emulator/gitlabemu/cirunner/runner.py:74-75 | no masked string that is non-empty and holds no `*` survives the masking, wherever it is in the list |
| CiRunner.EmptyMaskedValue | emulator/gitlabemu/cirunner/runner.py:186-187 | an empty masked value puts the stars before, between and after every character |
| CiRunner.MaskKeepsNonEmpty | emulator/gitlabemu/cirunner/runner.py:74-75 | masking never empties a non-empty chunk |
| CiRunner.ContentRange | emulator/gitlabemu/cirunner/runner.py:84 | the header names the first and last character of the chunk: `offset-(offset+size-1)` |
| CiRunner.PatchAt | emulator/gitlabemu/cirunner/runner.py:77-89 | a request carries the masked data, its length, and the range starting at the current offset |
| CiRunner.TilesSnoc | emulator/gitlabemu/cirunner/runner.py:77-90 | a request made at the current total keeps the requests tiling the trace, and the total grows by its size |
| CiRunner.TilesAt | emulator/gitlabemu/cirunner/runner.py:84-90 | every request's range starts where the requests before it end |
| CiRunner.ChunksSnoc | emulator/gitlabemu/cirunner/runner.py:66-69 | sending the buffer keeps what was written, in order |
| CiRunner.TraceUploader.constructor | emulator/gitlabemu/cirunner/runner.py:38-50 | a new uploader is at offset 0 with an empty buffer and the job token as its only masked string |
| CiRunner.TraceUploader.AddMasked | emulator/gitlabemu/cirunner/runner.py:186-187 | one more string is masked, last; nothing else changes |
| CiRunner.TraceUploader.Send | emulator/gitlabemu/cirunner/runner.py:71-94 | one request with the masked data at the current offset; the offset grows by the masked size whether or not the server accepts it, and a refusal is counted as an error call |
| CiRunner.TraceUploader.Flush | emulator/gitlabemu/cirunner/runner.py:66-69 | an empty buffer sends nothing; a non-empty one is sent, masked, and emptied |
| CiRunner.TraceUploader.Write | emulator/gitlabemu/cirunner/runner.py:56-59 | the data is buffered; once the buffer is over 512 characters it is sent and emptied, so the buffer never exceeds 512 and nothing written is lost |
| CiRunner.TraceUploader.WriteLine | emulator/gitlabemu/cirunner/runner.py:61-64 | the line and a newline are written, then flushed, so the buffer is empty afterwards |
| CiRunner.LookupAppend | emulator/gitlabemu/cirunner/runner.py:322-333 | a name is found in the first part of a joined list before the second |
| CiRunner.ProxyValue | emulator/gitlabemu/cirunner/runner.py:328-331 | a proxy contributes a value exactly when it is set and non-empty |
| CiRunner.GetEnvs | emulator/gitlabemu/cirunner/runner.py:322-333 | both CA variables exactly when a CA file is set, each proxy variable exactly when that proxy is set, each with its value |
| CiRunner.GetEnvsProxies | emulator/gitlabemu/cirunner/runner.py:322-333 | a default configuration adds nothing; with both proxies set both variables are there |
| LegacyConfigLoader.Reserved | gitlabemu/configloader.py:9-17 | exactly the eight reserved top-level keys |
| LegacyConfigLoader.CheckUnsupported | gitlabemu/configloader.py:39-59 | `include` is refused first, then `services`; otherwise the configuration passes exactly when no mapping entry holds `extends` or `parallel`, and a refusal names one of those two found in some entry |
| LegacyConfigLoader.GetStages | gitlabemu/configloader.py:76-82 | the `stages` entry when there is one, otherwise `test` alone |
| LegacyConfigLoader.GetJobs | gitlabemu/configloader.py:85-98 | the loop collects what the shared job filter gives for the legacy reserved keys |
| LegacyConfigLoader.JobsAmongSnoc | gitlabemu/configloader.py:92-97 | one more key extends the job list by that key exactly when it is a job |
| LegacyConfigLoader.LegacyJobsOrder | gitlabemu/configloader.py:85-98 | the jobs of a configuration without repeated keys are exactly its non-reserved mapping entries, each once, in configuration order |
| LegacyRunner.LegacyRunner.Target | gitlabemu/runner.py:23 | the given set, or the shared default one when none is given |
| LegacyRunner.LegacyRunner.ExecuteJobAsWritten | gitlabemu/runner.py:32-33 | as written, a job already in the set returns normally and any other raises AttributeError from the missing `load_job`, with nothing run |
| LegacyRunner.AsWritten | gitlabemu/runner.py:32-33 | normal return exactly for a completed job, AttributeError for every other |
| LegacyRunner.AsWrittenNeverRuns | gitlabemu/runner.py:32-38 | as written a job of the configuration that is not completed never runs, where the corrected call runs it |
| LegacyRunner.LegacyRunner.ExecuteJob | gitlabemu/runner.py:23-38 | with a working `load_job`, the jobs run are the post-order execution from the set a call uses, they are added to that set, a name that is not a job gives NoSuchJob, and after a call that raised nothing the job is in the set |
| LegacyRunner.LegacyRunner.ExecuteTwice | gitlabemu/runner.py:23-32 | of two calls that both omit `seen`, the second (made only when the first raised nothing) runs nothing, because the default set is shared |
| LegacyRunner.ExecCompletes | gitlabemu/runner.py:32-38 | after a call that raised nothing the job is in the set, whether it ran or was skipped; NoSuchJob names a name that is not a job |
| LegacyRunner.ExecOnce | gitlabemu/runner.py:32-38 | a call runs no job the set already holds, and runs each job at most once |
| Runner.After | emulator/gitlabemu/runner.py:158-159 | an outcome after earlier jobs keeps its stop and runs those jobs first |
| Runner.ExecAllStep | emulator/gitlabemu/runner.py:158-159 | the jobs run for a list of needs are those run for the first need, then, when it did not stop, those run for the rest, starting from what the first completed |
| Runner.ExecAllStop | emulator/gitlabemu/runner.py:158-159 | a need that raises NoSuchJob ends the loop with what ran so far |
| Runner.ExecAllAdvance | emulator/gitlabemu/runner.py:158-159 | the dependency loop's invariant carries over one need that did not stop |
| Runner.ElemsAppend | emulator/gitlabemu/runner.py:161 | the jobs of two runs together are the jobs of each |
| Runner.PostOrderAppend | emulator/gitlabemu/runner.py:157-161 | two runs in sequence, the second starting from what the first completed, make one post-order run |
| Runner.ExecPostOrder | emulator/gitlabemu/runner.py:155-161 | with `recurse`, every job runs after all it needs, no job runs twice or after it was seen; when nothing stopped the call the job is completed, and a stop names a name that is not a job and was not seen |
| Runner.PostOrderSnoc | emulator/gitlabemu/runner.py:160-161 | a run followed by a job whose needs it completed is still a post-order run |
| Runner.ExecAllPostOrder | emulator/gitlabemu/runner.py:158-159 | the dependency loop runs in post order; when nothing stopped it every need is completed, and a stop names a name that is not a job |
| Runner.ExecSingle | emulator/gitlabemu/runner.py:155-161 | without `recurse` a job not yet in `seen` runs alone, a completed one is skipped, and a name that is not a job gives NoSuchJob |
| Runner.ExecClosed | emulator/gitlabemu/configloader.py:304-306 | NoSuchJob comes only from a name that is not a job: when every needed name is a job no call is stopped |
| Runner.ExecAllClosed | emulator/gitlabemu/configloader.py:304-306 | the dependency loop over jobs only is never stopped |
| Runner.ExecuteJob | emulator/gitlabemu/runner.py:144-161 | the jobs run and the NoSuchJob raised are those of the post-order execution from `seen` (a new empty set when none is given), and exactly the jobs run are added to the given set |
| Runner.ExecuteAll | emulator/gitlabemu/runner.py:158-159 | the loop over the dependencies runs what the dependency fold says, stops at the first NoSuchJob, and adds the jobs run to `seen` |
| Runner.VarAssignment | emulator/gitlabemu/runner.py:303-312 | an item with `=` is split at its first `=`; a bare name takes its environment value and is dropped exactly when the environment lacks it |
| Runner.VarAssignmentRoundTrip | emulator/gitlabemu/runner.py:304-306 | a name without `=` and any value, even one holding `=`, come back from `NAME=VALUE` |
| Runner.SetVarsLastWins | emulator/gitlabemu/runner.py:303-312 | the last item that sets a name decides its value |
| Runner.SetVarsUnset | emulator/gitlabemu/runner.py:303-312 | a name no item sets keeps its value, or stays unset |
| Runner.ApplyVars | emulator/gitlabemu/runner.py:303-312 | the loop over the `--var` items gives the variables the item fold says |
| Runner.CheckParallel | emulator/gitlabemu/runner.py:365-377 | accepted exactly for a job with `parallel` and a spec `i/t` whose two halves `int()` accepts with 1 <= i <= t, giving back i and t; a job without `parallel` is refused for that |
| Runner.ParallelSpaced | emulator/gitlabemu/runner.py:369-371 | `1/ 2` is accepted as index 1 of 2, because `int()` skips the space |
| Runner.ParallelRoundTrip | emulator/gitlabemu/runner.py:369-377 | every index and total with 1 <= index <= total, written as numerals, are accepted and read back |
| Runner.ParallelIndexAboveTotal | emulator/gitlabemu/runner.py:376-377 | an index above the total is refused with both numbers in the message |
| ConfigLoader.Py | emulator/gitlabemu/configloader.py:164-188 | a Python exception from a value of the wrong shape is passed on as the loader's error, and a value passes through unchanged |
| ConfigLoader.StrList | emulator/gitlabemu/configloader.py:248 | a list of names as a loaded list of strings, item for item |
| ConfigLoader.GetStages | emulator/gitlabemu/configloader.py:242-248 | the `stages` entry when there is one, otherwise `.pre`, `build`, `test`, `deploy`, `.post` |
| ConfigLoader.JobsAmong | emulator/gitlabemu/configloader.py:257-264 | exactly the names that are jobs (non-reserved, mapping-valued), never more than were given |
| ConfigLoader.GetJobs | emulator/gitlabemu/configloader.py:251-264 | a name is listed exactly when it is a non-reserved key whose value is a mapping |
| ConfigLoader.JobsAmongOrder | emulator/gitlabemu/configloader.py:257-264 | the jobs come out in the order their keys appear, each once |
| ConfigLoader.IndexShift | emulator/gitlabemu/configloader.py:258 | a later key's position counts the first key |
| ConfigLoader.GetJobsOrder | emulator/gitlabemu/configloader.py:251-264 | for a configuration without repeated keys, the jobs are distinct and in configuration order |
| ConfigLoader.Staged | emulator/gitlabemu/configloader.py:278-280 | a job without `stage` gets `test`, added last; every other entry is unchanged |
| ConfigLoader.GetJob | emulator/gitlabemu/configloader.py:267-282 | succeeds exactly for a job name, and fails the assertion otherwise; the job comes back with its default stage, which is also written back into the configuration, nothing else changing |
| ConfigLoader.GetJobKeepsJobs | emulator/gitlabemu/configloader.py:267-282 | writing the default stage changes neither which entries are jobs nor their order |
| ConfigLoader.SameJobsAmong | emulator/gitlabemu/configloader.py:257-264 | two configurations that agree on which names are jobs list the same jobs |
| ConfigLoader.GetJobIdempotent | emulator/gitlabemu/configloader.py:267-282 | reading a job a second time changes nothing more |
| ConfigLoader.FirstUnsupported | emulator/gitlabemu/configloader.py:59-65 | nothing is found exactly when no mapping entry holds a listed keyword; what is found is a listed keyword held by some entry |
| ConfigLoader.FirstPresent | emulator/gitlabemu/configloader.py:63-65 | the first keyword of the list that the entry holds |
| ConfigLoader.CheckUnsupported | emulator/gitlabemu/configloader.py:52-65 | passes exactly when no mapping entry holds a listed keyword; otherwise FeatureNotSupportedError names a listed keyword that some entry holds |
| ConfigLoader.DefaultAcceptsAll | emulator/gitlabemu/configloader.py:52-65 | with the default, empty keyword list every configuration passes |
| ConfigLoader.PyInt | emulator/gitlabemu/configloader.py:145-146 | `int()` reads a plain numeral as its value, and any failure is ValueError |
| ConfigLoader.SignedInt | emulator/gitlabemu/configloader.py:145-146 | a stripped text is an integer exactly when it is digits with single underscores between them, optionally signed, and its value is that of its digits |
| ConfigLoader.PyIntStrips | emulator/gitlabemu/configloader.py:145-146 | `int()` of any text is the signed parse of that text stripped of the whitespace `int()` skips: ASCII space and `\t` to `\r`, and the non-ASCII Unicode spaces, but not U+001C to U+001F |
| ConfigLoader.PyIntOfString | emulator/gitlabemu/configloader.py:145-146 | `int(str(i)) == i` for every integer, negative ones included |
| ConfigLoader.PyIntSpaces | emulator/gitlabemu/configloader.py:145-146 | the whitespace `int()` skips, before and after a text, does not change what `int()` makes of it |
| ConfigLoader.PyIntSeparator | emulator/gitlabemu/configloader.py:145-146 | a numeral led by U+001C is refused with ValueError: that separator is not skipped |
| ConfigLoader.PyIntUnsigned | emulator/gitlabemu/configloader.py:145-146 | an unsigned stripped text is accepted exactly when its underscores each sit between digits |
| ConfigLoader.PyIntUnderscore | emulator/gitlabemu/configloader.py:145-146 | two numerals joined by one underscore read as the number written by their digits together (`1_000` is 1000) |
| ConfigLoader.PyIntLeadingSpace | emulator/gitlabemu/configloader.py:145-146 | ` 2` reads as 2 |
| ConfigLoader.PyIntDoubleUnderscore | emulator/gitlabemu/configloader.py:145-146 | two numerals joined by a doubled underscore are refused |
| ConfigLoader.PyIntLeadingUnderscore | emulator/gitlabemu/configloader.py:145-146 | a numeral led by an underscore is refused |
| ConfigLoader.PyIntTrailingUnderscore | emulator/gitlabemu/configloader.py:145-146 | a numeral followed by an underscore is refused |
| ConfigLoader.StrictNeedsStages | emulator/gitlabemu/configloader.py:136-147 | a version without `.` is never strict |
| ConfigLoader.SplitAtFirstDot | emulator/gitlabemu/configloader.py:144 | `split(".", 1)` splits at the first dot |
| ConfigLoader.StrictForNumerals | emulator/gitlabemu/configloader.py:143-147 | for a version `M.m` of plain numerals, strict exactly when M < 15 and m < 2 |
| ConfigLoader.StrictFourteenOne | emulator/gitlabemu/configloader.py:136-147 | 14.1 is strict |
| ConfigLoader.LaxDefault | emulator/gitlabemu/configloader.py:142-147 | 14.2, the default, is not strict |
| ConfigLoader.LaxThirteenFive | emulator/gitlabemu/configloader.py:143-147 | 13.5 is not strict, because the minor number is compared on its own |
| ConfigLoader.CheckArtifacts | emulator/gitlabemu/configloader.py:182-188 | a job without `artifacts` passes; with a mapping, it passes exactly when `paths` is a list and `reports` a mapping where present; errors are those two or a Python error |
| ConfigLoader.CheckReports | emulator/gitlabemu/configloader.py:186-188 | passes exactly when `reports`, where present, is a mapping |
| ConfigLoader.CheckNeeds | emulator/gitlabemu/configloader.py:167-180 | passes exactly when every need is accepted (a job, and of an earlier stage in strict mode); a missing need is reported as one that is not a job |
| ConfigLoader.CheckJob | emulator/gitlabemu/configloader.py:161-188 | a passing job has a listed stage, acceptable needs and well-shaped artifacts; an unknown stage is reported with the job and its stage |
| ConfigLoader.ValidateJobs | emulator/gitlabemu/configloader.py:157-159 | passes exactly when every visible listed job passes; an error is the error of some visible job |
| ConfigLoader.Validate | emulator/gitlabemu/configloader.py:150-188 | passes exactly when every visible job passes its checks; an error is that of some visible job |
| ConfigLoader.UnknownStageRejected | emulator/gitlabemu/configloader.py:164-165 | a job in a stage the configuration does not list is rejected |
| ConfigLoader.HiddenJobIgnored | emulator/gitlabemu/configloader.py:158-159 | the same bad stage under a `.` name passes |
| ConfigLoader.LStrip | emulator/gitlabemu/configloader.py:87 | `lstrip`: a suffix of the text, what was removed all strip characters, and the result does not start with one |
| ConfigLoader.IncludeName | emulator/gitlabemu/configloader.py:79-87 | a string, or a mapping's `local` entry, with leading `/` and `\` removed; a mapping without `local` is refused as unsupported |
| ConfigLoader.DoSingleInclude | emulator/gitlabemu/configloader.py:68-97 | as written: the file name is appended to the `include` list and the file's object returned, even when the name is already listed; nothing else in the base object changes |
| ConfigLoader.DoSingleIncludeOnce | emulator/gitlabemu/configloader.py:89-90 | corrected: a name already listed is refused with BadSyntaxError; otherwise as written |
| ConfigLoader.StripExample | emulator/gitlabemu/configloader.py:87 | `/a.yml` names `a.yml` |
| ConfigLoader.RepeatedIncludeAccepted | emulator/gitlabemu/configloader.py:89-91 | as written, including an already listed file lists it twice |
| ConfigLoader.IncludeOnceKeepsListDistinct | emulator/gitlabemu/configloader.py:89-91 | corrected, the include list never names a file twice |
| ConfigLoader.RepeatedIncludeRejected | emulator/gitlabemu/configloader.py:89-90 | corrected, including an already listed file is refused |
| ConfigLoader.Overlay | emulator/gitlabemu/configloader.py:131-133 | every copied key takes the source's value, the others keep theirs; keys new to the target go last; no key is repeated |
| ConfigLoader.OverlayFrom | emulator/gitlabemu/configloader.py:131-133 | the same for copying a chosen list of the source's keys |
| ConfigLoader.CopyItems | emulator/gitlabemu/configloader.py:131-133 | the loop copying an included object's entries gives the overlay |
| ConfigLoader.LastGetSnoc | emulator/gitlabemu/configloader.py:129-133 | the last object that has a key decides it |
| ConfigLoader.IncludeList | emulator/gitlabemu/configloader.py:125-128 | a list stands for its items, any other value for itself alone |
| ConfigLoader.IncludeStep | emulator/gitlabemu/configloader.py:130-133 | one include: the handler's result copied over the base object, or its error |
| ConfigLoader.DoIncludes | emulator/gitlabemu/configloader.py:100-133 | nothing for a falsy value; otherwise each include in turn, a list's items or the single value |
| ConfigLoader.Loaded | emulator/gitlabemu/configloader.py:129-130 | the included objects, one per include, in order |
| ConfigLoader.IncludesLaterWin | emulator/gitlabemu/configloader.py:124-133 | every key other than `include` ends with the value of the last included object that has it, else keeps the base object's |
| ConfigLoader.SingleIncludeLoads | emulator/gitlabemu/configloader.py:68-97 | `do_single_include` returns the named file's object and leaves every key but `include` alone, so later includes win with it |
| ConfigLoader.SingleIncludeOnceLoads | emulator/gitlabemu/configloader.py:68-97 | the corrected handler does the same |
| ConfigLoader.PrepareDefault | emulator/gitlabemu/configloader.py:196-207 | without a truthy `default` an empty one is added, and a truthy top-level `image` or `services` disappears; every other entry is unchanged |
| ConfigLoader.DropTruthy | emulator/gitlabemu/configloader.py:202-207 | a truthy entry is removed; a falsy one and every other entry stay |
| ConfigLoader.NonReserved | emulator/gitlabemu/configloader.py:209 | exactly the non-reserved keys, in order, each once |
| ConfigLoader.ExtendNames | emulator/gitlabemu/configloader.py:209 | the non-reserved keys and `default`, each once when `default` is reserved |
| ConfigLoader.Bases | emulator/gitlabemu/configloader.py:217-221 | no `extends` means `default` alone; a string is a one-item list; a list is itself |
| ConfigLoader.MissingBase | emulator/gitlabemu/configloader.py:223-225 | nothing is missing exactly when every base is a job name; what is missing is a base that is not |
| ConfigLoader.ExtendsError | emulator/gitlabemu/configloader.py:217-225 | the error on reaching a job is a TypeError or a missing base |
| ConfigLoader.MappingMissing | emulator/gitlabemu/configloader.py:223-225 | for a mapping under `extends`, the key found is one that is not a job name |
| ConfigLoader.MappingExtendsRejected | emulator/gitlabemu/configloader.py:217-234 | a mapping under `extends` always fails: BadSyntaxError naming one of its keys that is not a job, or TypeError exactly when every key is a job |
| ConfigLoader.BaseNames | emulator/gitlabemu/configloader.py:223-225 | the bases of a well-formed job, as names, each a job name |
| ConfigLoader.MergeFrom | emulator/gitlabemu/configloader.py:233-237 | each key takes the value of the last part that has it |
| ConfigLoader.ResolvedParts | emulator/gitlabemu/configloader.py:234 | the parts merged are the resolved bases, in order, then the job itself |
| ConfigLoader.ExtendsLaterWin | emulator/gitlabemu/configloader.py:233-238 | a job's own entries override its bases, and among the bases the last one listed that has a key decides |
| ConfigLoader.Remaining | emulator/gitlabemu/configloader.py:213 | while fewer names are resolved than there are, some name is left |
| ConfigLoader.PreparedJob | emulator/gitlabemu/configloader.py:214-225 | a job name other than `default` is a mapping entry, ranked above its bases |
| ConfigLoader.PickTarget | emulator/gitlabemu/configloader.py:213-239 | each pass has an unresolved job it is bound to settle: one with bad bases, or one of least rank |
| ConfigLoader.TargetReady | emulator/gitlabemu/configloader.py:227-230 | every base of a least-ranked unresolved job is already resolved |
| ConfigLoader.MergeJob | emulator/gitlabemu/configloader.py:233-238 | merging a job's bases and then the job gives its resolved form |
| ConfigLoader.ResolveStep | emulator/gitlabemu/configloader.py:238-239 | storing a job's resolved form and marking it resolved keeps the loop state |
| ConfigLoader.VisitJob | emulator/gitlabemu/configloader.py:215-239 | an error exactly for bad `extends`; otherwise the job is resolved when all its bases are, and the loop state is kept |
| ConfigLoader.ExtendPass | emulator/gitlabemu/configloader.py:214-239 | one sweep either reports a job's error or resolves at least one more job, keeping the loop state |
| ConfigLoader.Progress | emulator/gitlabemu/configloader.py:213 | each pass leaves fewer names unresolved, so the loop ends on acyclic input |
| ConfigLoader.ExtendsDone | emulator/gitlabemu/configloader.py:213 | once all names are resolved the configuration holds each job's resolved form and nothing else changed |
| ConfigLoader.ExtendInit | emulator/gitlabemu/configloader.py:210-211 | before the first pass only `default` counts as resolved |
| ConfigLoader.DoExtends | emulator/gitlabemu/configloader.py:191-239 | succeeds exactly when every job's `extends` is well formed and names existing jobs; then every job and `default` is replaced by its resolved form and the other entries are kept |
| ConfigLoader.DefaultBaseInherited | emulator/gitlabemu/configloader.py:217-238 | a job without `extends` inherits each key of `default` that it does not set itself |
| ConfigLoader.MissingBaseRejected | emulator/gitlabemu/configloader.py:223-225 | extending a name that is not a job is reported against the job |
| ConfigLoader.UnixPath | emulator/gitlabemu/configloader.py:532 | every `\` becomes `/` and nothing else changes |
| ConfigLoader.UnixPathIdempotent | emulator/gitlabemu/configloader.py:532 | converting a path already in unix form changes nothing |
| ConfigLoader.SourceFiles | emulator/gitlabemu/configloader.py:529 | the files recorded, in the order first recorded |
| ConfigLoader.SourceOf | emulator/gitlabemu/configloader.py:530 | a file has recorded keys exactly when it was recorded |
| ConfigLoader.SetSource | emulator/gitlabemu/configloader.py:508 | the file reads back the new keys and every other file reads as before |
| ConfigLoader.SourcePos | emulator/gitlabemu/configloader.py:508 | the position of the file's entry, or the end when it has none |
| ConfigLoader.SetSourceShape | emulator/gitlabemu/configloader.py:508 | recording replaces a file's entry in place, or appends one for a new file |
| ConfigLoader.SetSourceEntries | emulator/gitlabemu/configloader.py:508 | recording adds the file's entry and keeps only entries that were there |
| ConfigLoader.NewKeys | emulator/gitlabemu/configloader.py:506-507 | exactly the non-reserved keys of the result that were not there before, each once |
| ConfigLoader.FirstSource | emulator/gitlabemu/configloader.py:529-533 | nothing exactly when no recorded file lists the job; otherwise the first that does |
| ConfigLoader.Loader.RecordSources | emulator/gitlabemu/configloader.py:493-508 | the keys reading the file added are recorded under its name; the configuration is unchanged |
| ConfigLoader.Loader.GetJobFilename | emulator/gitlabemu/configloader.py:522-534 | none exactly when no file lists the job; otherwise the first such file, in unix form |
| ConfigLoader.RecordedJobFound | emulator/gitlabemu/configloader.py:508-534 | a file recorded with a job's key is where the job is found, unless an earlier file already listed it |
| Generator.StripKeys | emulator/gitlabemu/generator.py:21-23 | each listed key is gone, every other key keeps its value, and no key is added |
| Generator.StripJob | emulator/gitlabemu/generator.py:21-23 | the deleting loop leaves the job with exactly the listed keys removed |
| Generator.NeedItem | emulator/gitlabemu/generator.py:31-39 | a string item names itself; a mapping names its truthy `job`; anything else names nothing |
| Generator.NeedNames | emulator/gitlabemu/generator.py:30-39 | succeeds exactly when every item does, and names exactly what the items name |
| Generator.Needs | emulator/gitlabemu/generator.py:30 | a job without `needs` needs nothing |
| Generator.NeedsAgree | emulator/gitlabemu/generator.py:30 | what a job needs depends on its `needs` entry alone |
| Generator.AddStage | emulator/gitlabemu/generator.py:26-27 | afterwards the stage is in the list, which keeps what it held as a prefix; adding to a list never fails |
| Generator.JobStage | emulator/gitlabemu/generator.py:24-27 | a truthy stage of the job is in the list afterwards, and a list only grows at its end |
| Generator.AddStageKeeps | emulator/gitlabemu/generator.py:26-27 | a stage already listed stays listed |
| Generator.GeneratedNeeds | emulator/gitlabemu/generator.py:19-30 | stripping keys and defaulting the stage leave a job's needs as they were |
| Generator.AllNeedsFrom | emulator/gitlabemu/generator.py:30-39 | a name is needed by the generated jobs only when some generated job lists it |
| Generator.NeedUniverse | emulator/gitlabemu/generator.py:30-39 | holds every name any job of the configuration needs |
| Generator.SetStages | emulator/gitlabemu/generator.py:13-27 | the configuration's own `stages` list is the one the loop extends; no other entry changes |
| Generator.StagesNotGenerated | emulator/gitlabemu/generator.py:19 | `stages` is never a generated job, so the final `stages` entry does not overwrite one |
| Generator.ConfigStep | emulator/gitlabemu/generator.py:19-28 | storing a generated job keeps every generated job's form, in the output and in the configuration, and every other entry as it was |
| Generator.WorkStep | emulator/gitlabemu/generator.py:16-39 | visiting a pending job keeps the worklist closed: goals and every generated job's needs are generated or pending |
| Generator.StagesStep | emulator/gitlabemu/generator.py:24-27 | visiting a job keeps every generated job's stage listed |
| Generator.Visit | emulator/gitlabemu/generator.py:18-39 | one round generates the job, appended after the earlier ones, and keeps the loop invariant, or fails on a malformed entry |
| Generator.Enqueue | emulator/gitlabemu/generator.py:30-39 | fails exactly when the job's `needs` is malformed; otherwise its not-yet-generated needs become pending and the worklist stays closed |
| Generator.AddPending | emulator/gitlabemu/generator.py:31-39 | pending afterwards: what was pending and each needed name not yet generated |
| Generator.GenStart | emulator/gitlabemu/generator.py:12-14 | before the first round: nothing generated, the goals pending, the stages as the configuration has them |
| Generator.GenDone | emulator/gitlabemu/generator.py:16 | with nothing pending every goal is generated and every need of a generated job is generated |
| Generator.GenProgress | emulator/gitlabemu/generator.py:16-28 | each generated job is a new name from a finite set, so the loop ends |
| Generator.WithStages | emulator/gitlabemu/generator.py:41-44 | the generated jobs, followed by `stages` exactly when the stages are truthy |
| Generator.GenOutput | emulator/gitlabemu/generator.py:41-44 | the invariant with nothing pending yields the promised pipeline |
| Generator.OutJobs | emulator/gitlabemu/generator.py:16-39 | the generated jobs contain the goals, are closed under needs, and each was reached from the goals |
| Generator.OutConfig | emulator/gitlabemu/generator.py:19-28 | the loader's configuration holds each generated job as output, and every other job as before |
| Generator.OutStages | emulator/gitlabemu/generator.py:13-42 | the output has `stages` exactly when the list is not empty, and it is then the configured stages followed by each new job stage once, in the order the jobs were generated |
| Generator.NewStagesFresh | emulator/gitlabemu/generator.py:24-27 | the stages the jobs add are truthy, were not configured, and each is added once |
| Generator.NewStagesCover | emulator/gitlabemu/generator.py:24-27 | every generated job's truthy stage is configured or added |
| Generator.NewStagesFrom | emulator/gitlabemu/generator.py:24-27 | every added stage is the stage of some generated job |
| Generator.GenerateFrom | emulator/gitlabemu/generator.py:10-44 | the output holds the goals and every job they need, transitively, and nothing unreachable, each stripped of selection keys with its stage defaulted; its `stages`, present exactly when not empty, are the configured stages followed by each new job stage once, in the order first seen |
| Generator.GeneratePipeline | emulator/gitlabemu/generator.py:10-44 | the same, with the loader's configuration updated as the Python dictionaries are, in place: every generated job stored in its generated form and `stages` holding the extended list |
| RulesLexer.TokenText | emulator/gitlabemu/rules/lexer.py:21-25 | a quoted token's text is its value without the first and last character; an unquoted token's text is its value |
| RulesLexer.First | emulator/gitlabemu/rules/lexer.py:39-43 | the first character when there is one, ValueError exactly when the value is empty |
| RulesLexer.SkipWs | emulator/gitlabemu/rules/lexer.py:103-110 | stops at the first character that is not whitespace, or at the end, having passed only whitespace |
| RulesLexer.UnquotedEnd | emulator/gitlabemu/rules/lexer.py:133-155 | an unquoted token stops at the first whitespace or `)`, or at the end, and holds neither |
| RulesLexer.QuoteEnd | emulator/gitlabemu/rules/lexer.py:133-148 | the first matching quote character after the opening one, or none when there is none |
| RulesLexer.StartStep | emulator/gitlabemu/rules/lexer.py:170-189 | the start state consumes a brace as a token, or hands over to the text state without consuming anything |
| RulesLexer.ScanToken | emulator/gitlabemu/rules/lexer.py:127-160 | the token is the text from its first character to where it ends; it is quoted exactly when it starts with a quote character and is closed |
| RulesLexer.TextStep | emulator/gitlabemu/rules/lexer.py:120-167 | the text state always consumes at least one character of a non-empty remainder |
| RulesLexer.Next | emulator/gitlabemu/rules/lexer.py:87 | each step consumes input, except the one that switches from the start state to the text state, so the parse loop ends |
| RulesLexer.LexUnfold | emulator/gitlabemu/rules/lexer.py:86-91 | the parse loop: no token goes on, an incomplete token stops with an error, a complete one is kept |
| RulesLexer.LexTokens | emulator/gitlabemu/rules/lexer.py:86-91 | every token kept is complete and is either a brace or a text token read from the text at its position |
| RulesLexer.LexFailure | emulator/gitlabemu/rules/lexer.py:133-148 | SyntaxError only when some quote character has no matching one after it |
| RulesLexer.LexNoQuotes | emulator/gitlabemu/rules/lexer.py:155-160 | a text without quote characters always lexes |
| RulesLexer.ParenExample | emulator/gitlabemu/rules/lexer.py:179-184 | `($A)` lexes to the two braces around `$A`, each brace's pos one past it |
| RulesLexer.RegexExample | emulator/gitlabemu/rules/lexer.py:130-148 | a `/.../` token keeps its space and its slashes and is quoted |
| RulesLexer.UnterminatedExample | emulator/gitlabemu/rules/lexer.py:88-90 | an unterminated string is a syntax error |
| RulesLexer.Parser.constructor | emulator/gitlabemu/rules/lexer.py:47-52 | a parser starts with no tokens, no text, at position 0 |
| RulesLexer.Parser.Peek | emulator/gitlabemu/rules/lexer.py:65-69 | the next character, or empty exactly at the end |
| RulesLexer.Parser.Advance | emulator/gitlabemu/rules/lexer.py:71-73 | moves one character on unless at the end; nothing else changes |
| RulesLexer.Parser.Read | emulator/gitlabemu/rules/lexer.py:75-78 | returns what peek returned and advances |
| RulesLexer.Parser.SkipWhitespace | emulator/gitlabemu/rules/lexer.py:108-110 | moves to where SkipWs stops |
| RulesLexer.Parser.StartParse | emulator/gitlabemu/rules/lexer.py:172-189 | the token, position and state are those of StartStep |
| RulesLexer.Parser.ReadToken | emulator/gitlabemu/rules/lexer.py:133-160 | the token read and the position after it are those of ScanToken |
| RulesLexer.Parser.TextParse | emulator/gitlabemu/rules/lexer.py:120-167 | the token, position and state are those of TextStep |
| RulesLexer.Parser.StateParse | emulator/gitlabemu/rules/lexer.py:87 | the step is that of the current state |
| RulesLexer.Parser.Parse | emulator/gitlabemu/rules/lexer.py:80-92 | the tokens of the text are appended to those of earlier calls and returned, or SyntaxError when a token is incomplete |
| RulesSyntax.PutSpec | emulator/gitlabemu/rules/syntax.py:52-60 | the item fills the left slot when that is falsy, else the right one when that is falsy, else the assertion fails; a node item gets the target as parent; no other node changes |
| RulesSyntax.PutLinked | emulator/gitlabemu/rules/syntax.py:52-60 | put never links to a node outside the tree |
| RulesSyntax.Recognize | emulator/gitlabemu/rules/syntax.py:88-142 | each recognizer accepts exactly its pattern (a comparison operator in second place, `&&`, `\|\|`, a brace, a `$` token) and builds its node from the tokens it pops |
| RulesSyntax.FirstMatch | emulator/gitlabemu/rules/syntax.py:170-173 | the first recognizer in the fixed order that accepts; none exactly when none accepts |
| RulesSyntax.FirstMatchBrace | emulator/gitlabemu/rules/syntax.py:117-127 | an opening brace is recognised before anything else |
| RulesSyntax.FirstMatchCompare | emulator/gitlabemu/rules/syntax.py:88-99 | a comparison operator in second place makes a comparison unless the first token is a brace or a boolean operator |
| RulesSyntax.FirstMatchBareVariable | emulator/gitlabemu/rules/syntax.py:134-142 | a `$` token without a comparison after it is a bare variable |
| RulesSyntax.ApplyValid | emulator/gitlabemu/rules/syntax.py:174-212 | one step keeps the tree linked, adds one node and pops exactly the tokens the recognizer used |
| RulesSyntax.ApplyCollapse | emulator/gitlabemu/rules/syntax.py:175-179 | an empty `expr` context is replaced by what was recognised |
| RulesSyntax.ApplyBoolean | emulator/gitlabemu/rules/syntax.py:202-205 | a boolean operator takes the context as its left child, takes its place under the old parent and becomes the context |
| RulesSyntax.CompareExample | emulator/gitlabemu/rules/syntax.py:9-14 | `$COLOR == "red"` becomes one comparison node with the two operands |
| RulesSyntax.LoneOperatorRejected | emulator/gitlabemu/rules/syntax.py:161-173 | a comparison operator alone is accepted by no recognizer |
| RulesSyntax.Root | emulator/gitlabemu/rules/syntax.py:153-158 | the node reached has no parent |
| RulesSyntax.Rule.constructor | emulator/gitlabemu/rules/syntax.py:146-151 | a rule starts with its tokens and one empty `expr` context |
| RulesSyntax.Rule.Put | emulator/gitlabemu/rules/syntax.py:52-60 | the tree is updated as PutSpec says, or the assertion fails |
| RulesSyntax.Rule.ParseOne | emulator/gitlabemu/rules/syntax.py:168-218 | the first accepting recognizer's step is applied; with none, nothing changes and the result is None |
| RulesSyntax.Rule.Parse | emulator/gitlabemu/rules/syntax.py:160-166 | success leaves no tokens and returns a node without parent; SyntaxError carries the offset of the first token no recognizer accepts |
| RulesSyntax.ParseRule | emulator/gitlabemu/rules/syntax.py:224-230 | success means the text lexed and all its tokens were consumed |
| GitlabSim.NewRunner | simulator/gitlabsim/sim.py:16-24 | a new runner has the given name, flags, tags and capacity, no jobs and no runs |
| GitlabSim.NewJob | simulator/gitlabsim/sim.py:65-83 | a new job has the given description and has not run: nothing started, finished or done, all of its duration remaining |
| GitlabSim.Clone | simulator/gitlabsim/sim.py:106-117 | a clone is a job that has not run, with the same description, in no pipeline |
| GitlabSim.CloneTwice | simulator/gitlabsim/sim.py:106-117 | cloning a clone gives the same job as cloning once |
| GitlabSim.FinishedIsDone | simulator/gitlabsim/sim.py:91-97 | in a job's reachable states it has a finish time exactly when it is done |
| GitlabSim.Start | simulator/gitlabsim/sim.py:48-58 | the job is taken exactly when the runner matches it, and then it is appended and counted; otherwise nothing changes; the runner never goes over capacity |
| GitlabSim.Reset | simulator/gitlabsim/sim.py:26-28 | no jobs and no runs; the runner then matches exactly the jobs whose tags it has and that have an image, when it has room and runs images |
| GitlabSim.Unfinished | simulator/gitlabsim/sim.py:31-33 | the runner's jobs that have not finished, in order |
| GitlabSim.RunnerTick | simulator/gitlabsim/sim.py:30-33 | the runner keeps exactly its unfinished jobs and nothing else changes |
| GitlabSim.JobTick | simulator/gitlabsim/sim.py:91-97 | the remaining time drops by t; the job becomes done exactly when its countdown reaches zero; nothing else changes but the finish time |
| GitlabSim.StateInverted | simulator/gitlabsim/sim.py:99-104 | as written, a job that has run to completion reports "running" |
| GitlabSim.IntendedState | simulator/gitlabsim/sim.py:99-104 | corrected: finished once started with nothing remaining, running while started with time remaining, pending before it starts |
| GitlabSim.IntendedStateDone | simulator/gitlabsim/sim.py:99-104 | corrected, a done job is finished and a started job with time left is running |
| GitlabSim.Needed | simulator/gitlabsim/sim.py:119-129 | exactly the pipeline's jobs the job depends on that are not yet done |
| GitlabSim.ReadyMeaning | simulator/gitlabsim/sim.py:131-139 | a job is ready exactly when it is not done, not started, and every job of its pipeline it depends on is done |
| GitlabSim.ReadyStays | simulator/gitlabsim/sim.py:131-139 | a ready job stays ready while other jobs finish |
| GitlabSim.Pipeline.AddJob | simulator/gitlabsim/sim.py:163-170 | the job is appended to the pipeline's jobs |
| GitlabSim.Tagged | simulator/gitlabsim/sim.py:169 | every job of the pipeline, in order, marked as belonging to that pipeline |
| GitlabSim.ReadyExtend | simulator/gitlabsim/sim.py:219-220 | jobs of another pipeline joining the server leave readiness alone |
| GitlabSim.UnplaceableStart | simulator/gitlabsim/sim.py:233-240 | a runner taking a job only makes it harder for other jobs to fit |
| GitlabSim.HostedStart | simulator/gitlabsim/sim.py:236-239 | a started job runs on the runner that took it |
| GitlabSim.OneRunning | simulator/gitlabsim/sim.py:41-46 | with one runner of capacity one, at most one job runs |
| GitlabSim.WorkedShift | simulator/gitlabsim/sim.py:253-254 | moving every running job on by a shift does that shift of work per running job |
| GitlabSim.WorkedAllDone | simulator/gitlabsim/sim.py:91-97 | once every job is done, the work done is the sum of the durations |
| GitlabSim.ReadyBelow | simulator/gitlabsim/sim.py:228-231 | exactly the ready jobs among the first m |
| GitlabSim.CollectedOK | simulator/gitlabsim/sim.py:228-231 | adding ready jobs to the ready set keeps the server's invariant |
| GitlabSim.StartJobOK | simulator/gitlabsim/sim.py:236-240 | starting a ready job on a matching runner keeps the server's invariant |
| GitlabSim.RetireOK | simulator/gitlabsim/sim.py:258-261 | moving a done job from running to finished keeps the server consistent |
| GitlabSim.RunnerTickOK | simulator/gitlabsim/sim.py:264-265 | a runner dropping its finished jobs keeps the server consistent, and keeps only jobs not done |
| GitlabSim.FindRunner | simulator/gitlabsim/sim.py:235-240 | the first runner that matches the job, or none when no runner does |
| GitlabSim.ShiftJobs | simulator/gitlabsim/sim.py:253-254 | every running job is moved on by the shift, every other job is unchanged, and the work done grows by the shift per running job |
| GitlabSim.MoveFinished | simulator/gitlabsim/sim.py:258-261 | exactly the done running jobs move to the finished set |
| GitlabSim.TickRunners | simulator/gitlabsim/sim.py:264-265 | every runner drops its finished jobs, nothing else changes |
| GitlabSim.StartPhase | simulator/gitlabsim/sim.py:233-240 | the second loop only starts jobs from the ready set, at the current time, and leaves the runners' configuration alone |
| GitlabSim.AdvancePhase | simulator/gitlabsim/sim.py:243-255 | the third and fourth loops move running jobs and the clock on by the same amount, restarting nothing |
| GitlabSim.RetirePhase | simulator/gitlabsim/sim.py:257-265 | the last loops touch neither jobs nor clock nor the runners' configuration |
| GitlabSim.RetireSettled | simulator/gitlabsim/sim.py:257-265 | on a settled server the last loops only grow the finished set |
| GitlabSim.TickJobs | simulator/gitlabsim/sim.py:222-267 | across a tick no job changes identity, done jobs stay done, and every job that started was ready when the tick began and started at that time |
| GitlabSim.TickProgress | simulator/gitlabsim/sim.py:222-267 | a tick that takes time finishes at least one job; one that takes none finishes none |
| GitlabSim.ProgressCore | simulator/gitlabsim/sim.py:243-255 | moving on by the least remaining time finishes the fastest job |
| GitlabSim.NotDoneLater | simulator/gitlabsim/sim.py:95-97 | a job finishing, with none coming undone, shrinks the number of jobs not done |
| GitlabSim.StartKeepsWork | simulator/gitlabsim/sim.py:233-240 | starting jobs does no work and leaves the runners' configuration alone |
| GitlabSim.TickConfig | simulator/gitlabsim/sim.py:222-267 | a tick leaves the runners' names, tags, flags and capacities alone |
| GitlabSim.TickWork | simulator/gitlabsim/sim.py:250-255 | with one single-job runner the clock moves only while a job runs, so the idle time is the same after a tick |
| GitlabSim.TickStalled | simulator/gitlabsim/sim.py:242-255 | a tick that takes no time leaves every ready job unplaceable, and anything still running has nothing left to do |
| GitlabSim.TickStalledReady | simulator/gitlabsim/sim.py:228-231 | after a tick that takes no time every ready job is in the ready set |
| GitlabSim.AppendJobs | simulator/gitlabsim/sim.py:219-220 | the pipeline's jobs are appended, in order, to the server's, marked with the pipeline |
| GitlabSim.AdvanceBy | simulator/gitlabsim/sim.py:250-255 | the running jobs and the clock move on by the least remaining time, keeping the server consistent |
| GitlabSim.AddPipelineOK | simulator/gitlabsim/sim.py:212-220 | a pipeline of jobs that have not run keeps the server's invariant |
| GitlabSim.Server.constructor | simulator/gitlabsim/sim.py:194-202 | a new server: time 0, no runners, pipelines or jobs, empty ready, running and finished sets |
| GitlabSim.Server.AddRunner | simulator/gitlabsim/sim.py:204-210 | the runner is appended; nothing else changes |
| GitlabSim.Server.AddPipeline | simulator/gitlabsim/sim.py:212-220 | the pipeline's jobs are appended, marked with the new pipeline's number; nothing else changes |
| GitlabSim.Server.CollectReady | simulator/gitlabsim/sim.py:228-231 | every ready job joins the ready set |
| GitlabSim.Server.StartReady | simulator/gitlabsim/sim.py:233-240 | every ready job is tried on the runners in order; the first that matches takes it and it starts now |
| GitlabSim.Server.Fastest | simulator/gitlabsim/sim.py:243-248 | a running job with the least time remaining |
| GitlabSim.Server.Advance | simulator/gitlabsim/sim.py:250-255 | every running job and the clock move on by the least remaining time, or by nothing when nothing runs |
| GitlabSim.Server.Retire | simulator/gitlabsim/sim.py:257-265 | finished jobs leave the running set for the finished set, and runners drop them |
| GitlabSim.Server.Tick | simulator/gitlabsim/sim.py:222-267 | returns the time that passed; no job changes identity, done jobs stay done, jobs that started were ready when the tick began; a tick that takes time finishes a job, and one that takes none leaves the ready jobs unplaceable |
| GitlabSim.Simulation.constructor | simulator/gitlabsim/sim.py:271-273 | a new simulation at time 0 with a new server |
| GitlabSim.Simulation.AddPipeline | simulator/gitlabsim/sim.py:275-281 | the pipeline joins the server |
| GitlabSim.Simulation.Tick | simulator/gitlabsim/sim.py:283-291 | one server tick, the simulation clock moving with the server's; a tick that takes time finishes a job; one that takes none leaves the server stopped |
| GitlabSim.Simulation.Run | simulator/gitlabsim/sim.py:293-296 | ticks until a tick takes no time, which always happens, and returns the clock of the stopped server |
| GitlabSim.SinceTrans | simulator/gitlabsim/sim.py:293-296 | what holds between tick and tick holds across the run |
| GitlabSim.SimpleJobs | simulator/test_sim_simple.py:15-18 | four jobs that have not run, in pipeline 0 |
| GitlabSim.SimpleTotal | simulator/test_sim_simple.py:15-18 | their durations add up to 19 |
| GitlabSim.NoneNeeded | simulator/test_sim_simple.py:15-18 | once the earlier jobs are done, a job of the simple pipeline waits for nothing |
| GitlabSim.StalledIdle | simulator/gitlabsim/sim.py:222-267 | a stopped server with one runner that takes every untagged job with an image has nothing running: every job not done is waiting, unstarted |
| GitlabSim.SimpleAllDone | simulator/test_sim_simple.py:55-56 | on the simple pipeline no job can wait forever |
| GitlabSim.SimpleFinish | simulator/test_sim_simple.py:57-58 | run to a stop from time 0, the simple pipeline ends at 19 |
| GitlabSim.SimpleRun | simulator/test_sim_simple.py:4-66 | one runner taking one job at a time runs the four jobs and the run ends at 19 |
| GitlabSim.SimpleSetup | simulator/test_sim_simple.py:5-25 | the server holds the one runner and the four jobs of pipeline 0, at time 0 |
| GitlabSim.SimplePipeline | simulator/test_sim_simple.py:13-23 | the pipeline holds the four jobs in the order they were added |
| GitlabSim.SimpleStart | simulator/test_sim_simple.py:8-25 | the starting server has done no work and has one single-job runner that takes images |
| GitlabSimUtils.ComboOf | simulator/gitlabsim/utils.py:6-8 | a combo holds exactly the tags listed |
| GitlabSimUtils.TagHashRemove | simulator/gitlabsim/utils.py:13-17 | the hash sums the tags' hashes whatever order the set is walked in |
| GitlabSimUtils.TagHashUnion | simulator/gitlabsim/utils.py:13-17 | the hash of disjoint tag sets together is the sum of their hashes |
| GitlabSimUtils.HashAgrees | simulator/gitlabsim/utils.py:10-17 | tag lists with the same members give equal combos with equal hashes, as a set needs |
| GitlabSimUtils.UniqueProfiles | simulator/gitlabsim/utils.py:26-36 | every runner's combo is in the set, and only those; never more than there are runners |
| GitlabSimUtils.GeneratedNamesDistinct | simulator/gitlabsim/utils.py:55 | different counters give different names |
| GitlabSimUtils.Entry | simulator/gitlabsim/utils.py:51-60 | the entry runs images exactly for `~image`, runs untagged exactly for `~untagged`, and lists exactly the tags without `~` |
| GitlabSimUtils.EntryTagsSplit | simulator/gitlabsim/utils.py:51-53 | the marker tags are exactly what the entry's tags leave out |
| GitlabSimUtils.RunnersTemplate | simulator/gitlabsim/utils.py:39-63 | one entry per distinct profile, each once, named generated-0 onward in the walk order, each of capacity one |
| GitlabSimUtils.ProfileTemplate | simulator/gitlabsim/utils.py:66-80 | one entry per pipeline job, in order, each with the default time |
| BambooLoader.Put | emulator/bambemu/loader.py:76 | assigning a key: an existing key keeps its place and takes the new value, a new key goes last |
| BambooLoader.PutDistinct | emulator/bambemu/loader.py:76 | the jobs dictionary never holds a name twice |
| BambooLoader.Len | emulator/bambemu/loader.py:63 | `len` is defined exactly for mappings, lists and strings |
| BambooLoader.Iter | emulator/bambemu/loader.py:61-71 | iterating succeeds exactly for iterable values, giving their items; otherwise TypeError |
| BambooLoader.JobDefaults | emulator/bambemu/loader.py:24-29 | a job loads from a mapping only, else AttributeError; each field is its key's value, or None or an empty list when absent |
| BambooLoader.StageDefaults | emulator/bambemu/loader.py:39-42 | a stage loads from a mapping only; its jobs default to none, final and manual to False |
| BambooLoader.StageItemShape | emulator/bambemu/loader.py:61-68 | only a single-key mapping makes a stage, named by its key; another length fails the assertion, no length raises TypeError |
| BambooLoader.SingleListItem | emulator/bambemu/loader.py:61-67 | a one-element list never makes a stage: indexing it by its element reaches a value without `get` (AttributeError) exactly for 0, -1 and False, is out of range (IndexError) for other integers and True, and raises TypeError for any other element |
| BambooLoader.StageListItems | emulator/bambemu/loader.py:61-68 | a successful load has one stage per item, item i's stage at position i |
| BambooLoader.StageListFirstFault | emulator/bambemu/loader.py:61-68 | a failed load fails at the first bad item, with that item's fault |
| BambooLoader.StageListStops | emulator/bambemu/loader.py:61-68 | once a prefix of the items fails, the whole list fails the same way |
| BambooLoader.JobOfShape | emulator/bambemu/loader.py:72-75 | a job is found only under a string that is a top-level key holding a mapping, and is named by it; an unhashable name raises TypeError; any other missing name fails the assertion |
| BambooLoader.PlanOf | emulator/bambemu/loader.py:56-77 | a plan loads only from a mapping whose `plan` section is a mapping |
| BambooLoader.Listed | emulator/bambemu/loader.py:71 | a stage lists the items of its `jobs` |
| BambooLoader.StageJobNamesMembers | emulator/bambemu/loader.py:70-71 | a name is among the stages' job names exactly when some stage lists it |
| BambooLoader.AddJobsFacts | emulator/bambemu/loader.py:71-76 | every name added is a top-level key holding a mapping, and the table's names are the old ones and the new |
| BambooLoader.PutTableOk | emulator/bambemu/loader.py:75-76 | every job in the table is the one loaded from the document under its name |
| BambooLoader.AddJobsAppend | emulator/bambemu/loader.py:70-76 | adding two runs of names is adding the first and then the second |
| BambooLoader.JobsOfAddsListed | emulator/bambemu/loader.py:70-76 | the jobs dictionary is the listed names' jobs, added stage by stage, in order |
| BambooLoader.AddJobsStops | emulator/bambemu/loader.py:71-76 | once a name fails, the loop fails the same way |
| BambooLoader.JobsOfStops | emulator/bambemu/loader.py:70-76 | once a stage's names fail, the whole loop fails the same way |
| BambooLoader.StagesInDocumentOrder | emulator/bambemu/loader.py:61-68 | a loaded plan's stages are the `stages` items in document order, each a single-key mapping named by its key |
| BambooLoader.PlanFields | emulator/bambemu/loader.py:56-77 | key, project key and name come from the `plan` section, None when absent; repositories from the document, none when absent; no `get` on a document that is not a mapping |
| BambooLoader.OneJobPerName | emulator/bambemu/loader.py:70-76 | every job a stage names is a top-level key holding a mapping, and the plan holds one job per distinct name, loaded from that key |
| BambooLoader.BamJob.constructor | emulator/bambemu/loader.py:16-22 | a new job has no key and empty lists |
| BambooLoader.BamJob.Load | emulator/bambemu/loader.py:24-29 | the fields become the loaded job's, or nothing changes when the data is not a mapping |
| BambooLoader.BamStage.constructor | emulator/bambemu/loader.py:33-37 | a new stage has no jobs and is neither final nor manual |
| BambooLoader.BamStage.Load | emulator/bambemu/loader.py:39-42 | the fields become the loaded stage's, or nothing changes when the data is not a mapping |
| BambooLoader.PutHolds | emulator/bambemu/loader.py:76 | the job objects keep holding the loaded values after a put |
| BambooLoader.BamPlan.constructor | emulator/bambemu/loader.py:48-54 | a new plan has no name, keys, stages, jobs or repositories |
| BambooLoader.BamPlan.Load | emulator/bambemu/loader.py:56-77 | the plan holds what PlanOf loads, or the load's fault is returned |
| BambooLoader.BamPlan.LoadBody | emulator/bambemu/loader.py:61-76 | the stages and the jobs are those the two loops load |
| BambooLoader.BamPlan.LoadStages | emulator/bambemu/loader.py:61-68 | one stage per item, appended in order, or the first item's fault |
| BambooLoader.BamPlan.AddStage | emulator/bambemu/loader.py:63-68 | one new stage, loaded from the item and appended; nothing changes on failure |
| BambooLoader.BamPlan.LoadJobs | emulator/bambemu/loader.py:70-76 | the jobs dictionary holds the jobs the stages name, or the first fault |
| BambooLoader.BamPlan.AddStageJobs | emulator/bambemu/loader.py:71-76 | one stage's names, in order |
| BambooLoader.BamPlan.AddJob | emulator/bambemu/loader.py:72-76 | the named job, loaded from the document and put under its name; nothing changes on failure |
| BambooLoader.BamLoader.constructor | emulator/bambemu/loader.py:83-86 | a new loader has no plans |
| BambooLoader.BamLoader.ParsePlan | emulator/bambemu/loader.py:133-137 | a plan that loads and has jobs is appended; one without jobs is dropped; a failing load leaves the plans alone |
| BambooDocs.Flatten | emulator/bambemu/yamltypes.py:6-13 | the result holds no nested list |
| BambooDocs.LeafCount | emulator/bambemu/yamltypes.py:8-12 | a document counts one |
| BambooDocs.LeafCountAll | emulator/bambemu/yamltypes.py:8-12 | an empty list holds no documents |
| BambooDocs.FlattenAppend | emulator/bambemu/yamltypes.py:8-12 | order is kept: a list's first part's documents come before the rest's |
| BambooDocs.FlattenLength | emulator/bambemu/yamltypes.py:6-13 | the result has exactly as many items as there are documents, counted through the nesting |
| BambooDocs.FlattenFlat | emulator/bambemu/yamltypes.py:9-13 | a list with no nested list flattens to itself |
| BambooDocs.FlattenIdempotent | emulator/bambemu/yamltypes.py:6-13 | flattening twice is flattening once |
| BambooDocs.FlattenNested | emulator/bambemu/yamltypes.py:9-10 | a nested list alone flattens to its own flattening |
| BambooDocs.RegroupParts | emulator/bambemu/yamltypes.py:8-12 | splicing a nested list's items into place leaves the flattening unchanged, so the documents come depth first, left to right |
| DesignerSimulator.CostProfile.GetCost | designer/PipelineDesigner/simulator.py:133-134 | a job's listed build time, or one tick when it has none |
| DesignerSimulator.Bump | designer/PipelineDesigner/simulator.py:42-53 | the key exists afterwards and only its figure changes, by the amount added; the total grows by that amount |
| DesignerSimulator.OwnDelaysMeaning | designer/PipelineDesigner/simulator.py:41-45 | the keys are exactly the causes of the task's own delays, each summing the positive costs of that cause |
| DesignerSimulator.InheritMeaning | designer/PipelineDesigner/simulator.py:48-53 | a need's total goes under "inherited <name>", a key created only when the need reported a delay |
| DesignerSimulator.GetDelaysKeys | designer/PipelineDesigner/simulator.py:39-55 | the keys of get_delays: the causes of the task's own delays and "inherited <name>" for each need that reported a delay |
| DesignerSimulator.GetDelaysNonNegative | designer/PipelineDesigner/simulator.py:39-55 | no figure get_delays reports is negative, whatever the delays' costs |
| DesignerSimulator.ReadyAlways | designer/PipelineDesigner/simulator.py:60-64 | ready() holds of every task: it never looks at the needs' progress |
| DesignerSimulator.Active | designer/PipelineDesigner/simulator.py:98-99 | never more active tasks than the runner lists |
| DesignerSimulator.ActiveNoneStarted | designer/PipelineDesigner/simulator.py:246-247 | while every task has started at 0, no runner has an active task, so tasks placed at tick 0 do not count against capacity |
| DesignerSimulator.FirstFit | designer/PipelineDesigner/simulator.py:251-255 | the first runner that can execute the task, or none when none can |
| DesignerSimulator.LoopFinished | designer/PipelineDesigner/simulator.py:243-269 | the loop ends at the first tick whose world has no work left, or runs out of fuel |
| DesignerSimulator.SimulateMeaning | designer/PipelineDesigner/simulator.py:226-269 | NoRunner with the first task's tags that no runner can take, before any tick; otherwise the first tick after which no work remains, and the tasks as they are then |
| DesignerSimulator.RunTwice | designer/PipelineDesigner/simulator.py:227-230 | because run resets everything first, a second run gives the same outcome, tasks and runners |
| DesignerSimulator.AdmitOneShape | designer/PipelineDesigner/simulator.py:244-257 | admission changes only what a reset clears |
| DesignerSimulator.AdmitAtZero | designer/PipelineDesigner/simulator.py:244-255 | at tick 0 every task goes to the first runner that suits it, whatever its capacity, and keeps started at 0 |
| DesignerSimulator.UnrunnableIdle | designer/PipelineDesigner/simulator.py:232-240 | after the reset, the static check asks only whether some runner suits the task |
| DesignerSimulator.StepProgress | designer/PipelineDesigner/simulator.py:244-261 | once every task is listed, a tick takes at least one unit from every task with work left |
| DesignerSimulator.IterateProgress | designer/PipelineDesigner/simulator.py:243-261 | after n ticks from a reset world each task's remaining work has dropped by at least n or reached zero |
| DesignerSimulator.LoopReaches | designer/PipelineDesigner/simulator.py:243-267 | a loop that has a finished world within its budget finishes no later than it |
| DesignerSimulator.MakespanBound | designer/PipelineDesigner/simulator.py:226-269 | when every task has a runner, run finishes within the longest task's cost, whatever the capacities |
| DesignerSimulator.IterateDelays | designer/PipelineDesigner/simulator.py:256-257 | the only delays run records are Delay("runner", 1), at most one per task per tick |
| DesignerSimulator.VisibleMeaning | designer/PipelineDesigner/simulator.py:196-200 | exactly the jobs whose names do not start with ".", in order |
| DesignerSimulator.NeedTasksMeaning | designer/PipelineDesigner/simulator.py:205-210 | a need's task is kept exactly when the need has already been placed |
| DesignerSimulator.PlacedMeaning | designer/PipelineDesigner/simulator.py:218 | each job placed so far maps to the slot of its task |
| DesignerSimulator.LoadedTask | designer/PipelineDesigner/simulator.py:194-218 | the k-th task is the k-th visible job with its profile cost (default 1), pipeline 1 + the pipeline count, no progress and no delays; its needs are exactly the earlier-listed jobs it needs, later ones being dropped |
| DesignerSimulator.LoadStep | designer/PipelineDesigner/simulator.py:204-218 | one turn of the load loop appends the next job's task at the next slot |
| DesignerSimulator.RunnerOf | designer/PipelineDesigner/simulator.py:153-161 | a runner named by the record's first key, images off, no tags and one slot unless the record says otherwise; no runner for a record with no key |
| DesignerSimulator.KeyedPrefix | designer/PipelineDesigner/simulator.py:153-154 | the records before the first with no key |
| DesignerSimulator.RunnersOf | designer/PipelineDesigner/simulator.py:153-161 | one runner per record, in order |
| DesignerSimulator.SimulatedResources.constructor | designer/PipelineDesigner/simulator.py:138-142 | no runners, tasks or pipelines, and an empty profile |
| DesignerSimulator.SimulatedResources.AddRunner | designer/PipelineDesigner/simulator.py:163-172 | the runner is appended with no tasks; nothing else changes |
| DesignerSimulator.SimulatedResources.LoadRunners | designer/PipelineDesigner/simulator.py:150-161 | the profile takes the timings; each record's runner is appended in order, and a record with no key raises IndexError after the runners before it were added |
| DesignerSimulator.SimulatedResources.AddTask | designer/PipelineDesigner/simulator.py:174-186 | the task is appended with all its work remaining, unstarted and undelayed; its slot is returned |
| DesignerSimulator.SimulatedResources.LoadJob | designer/PipelineDesigner/simulator.py:204-218 | one turn of the load loop: the job's task is appended and the job placed at its slot |
| DesignerSimulator.SimulatedResources.LoadTasks | designer/PipelineDesigner/simulator.py:188-218 | one task per visible job, in loader order, as LoadedTask describes; nothing else changes |
| DesignerSimulator.SimulatedResources.ResetAll | designer/PipelineDesigner/simulator.py:227-230 | every task has all its work remaining, no delays and started 0; every runner has no tasks |
| DesignerSimulator.SimulatedResources.FindUnrunnable | designer/PipelineDesigner/simulator.py:232-240 | the first task no runner can execute, if any |
| DesignerSimulator.SimulatedResources.Execute | designer/PipelineDesigner/simulator.py:117-119 | the task starts now and joins the runner's list; nothing else changes |
| DesignerSimulator.SimulatedResources.AddDelay | designer/PipelineDesigner/simulator.py:57-58 | the delay is appended to the task's; nothing else changes |
| DesignerSimulator.SimulatedResources.AdmitTasks | designer/PipelineDesigner/simulator.py:244-257 | the admission pass over every task |
| DesignerSimulator.SimulatedResources.TickRunner | designer/PipelineDesigner/simulator.py:112-115 | each listed task with work left loses one unit |
| DesignerSimulator.SimulatedResources.PendingCount | designer/PipelineDesigner/simulator.py:262-267 | zero exactly when no task has work remaining |
| DesignerSimulator.SimulatedResources.TickOnce | designer/PipelineDesigner/simulator.py:244-261 | one tick: admission, then every runner's tick |
| DesignerSimulator.SimulatedResources.Run | designer/PipelineDesigner/simulator.py:226-269 | the outcome and final state SimulateMeaning describes |
| DesignerSimulator.VisibleJobs | designer/PipelineDesigner/simulator.py:196-200 | the jobs whose names do not start with "." |
| DesignerSimulator.NeedTasksOf | designer/PipelineDesigner/simulator.py:205-210 | the tasks of the needs already placed, in order |
| DesignerAnalysis.IncreasedConcurrency | designer/PipelineDesigner/analysis.py:62 | at least minimum more than c, and otherwise 110% of c rounded down |
| DesignerAnalysis.EarlyBump | designer/PipelineDesigner/analysis.py:137-139 | two on the first pass, one on every later pass |
| DesignerAnalysis.ScanDelays | designer/PipelineDesigner/analysis.py:209-216 | an entry naming "runner" stresses the task's runner, listing the task if the runner is new; any entry marks the runner critical when the task is on the critical path |
| DesignerAnalysis.GetContendedRunners | designer/PipelineDesigner/analysis.py:200-217 | stressed: the runners of tasks with a "runner" delay key; critical: the runners of delayed tasks on the critical path; listed: for each stressed runner, the first task that stressed it, in order |
| DesignerAnalysis.SearchSim.IncreaseRunner | designer/PipelineDesigner/analysis.py:60-66 | the runner grows by additional, at least the minimum, to the increased capacity, and the simulation is re-run |
| DesignerAnalysis.SearchSim.Probe | designer/PipelineDesigner/analysis.py:90-107 | the last pipeline count that did not exceed the acceptable duration and the duration before the one that did |
| DesignerAnalysis.SearchSim.RaiseWhileHelping | designer/PipelineDesigner/analysis.py:146-159 | a raise is kept only when the makespan strictly drops, and the kept makespan is the simulation of the current capacities; the first raise that does not help is undone, so with no kept raise the capacities are unchanged; no other runner changes; the reported new duration is the simulation of the last capacities tried |
| DesignerAnalysis.SearchSim.RelieveStressed | designer/PipelineDesigner/analysis.py:145-159 | capacities only grow, the added counts account for every kept raise, the best duration never rises, helped holds exactly when it fell and the capacities are unchanged when it did not; the new duration is the simulation of the last capacities tried |
| DesignerAnalysis.SearchSim.ScaleStuck | designer/PipelineDesigner/analysis.py:163-176 | exactly the runners of the last-ending tasks grow, and the last duration, the simulation of the final capacities, is adopted without undo |
| DesignerAnalysis.SearchSim.Passes | designer/PipelineDesigner/analysis.py:133-180 | a found result is fast enough, its duration is the simulation of the last capacities tried, and the added counts account exactly for the growth since the search began |
| DesignerAnalysis.SearchSim.Discover | designer/PipelineDesigner/analysis.py:69-180 | a found result is fast enough and is the simulation of the last capacities tried; it accounts for every runner added; it reports the probed pipeline count, the duration before the failing probe (the single-pipeline duration when only one passed) and the aimed-for count |
| DesignerAnalysis.AccountedChain | designer/PipelineDesigner/analysis.py:115-175 | accounts for each pass chain into an account since the search began |

## Left out

- File and YAML input: reading files, `Loader._read`/`load`, `find_ci_config`, the
  PyYAML wrapper, `include_constructor`, `BamLoader.load` and user configuration
  load/save. Each model starts from the loaded object graph. For the designer's
  `SimulatedResources.load`, the task timings and runner records are parameters.
- Network and API clients: GitLab API access, pipeline fetching, the `cirunner`
  job runner loop and the `glp` tools. The trace uploader's HTTP request is
  represented by the chunks it sends.
- Process, thread and container execution: Docker exec, run and services,
  `communicate` and its proxy threads, `chown.py`, `pstab.py` and the
  process-liveness test. The job's own run is represented by the order in which
  jobs are run.
- Platform and environment inputs are parameters: `platform.machine()`, the
  process id and generated UUID of resource names, `GLE_CONTEXT`, and
  `ca_cert.absolute()` (taken as already absolute).
- Floating point: throughput and percentage figures and `parse_timeout`. The 1.1
  and 1.3 factors of the capacity search are integer-scaled comparisons.
- The critical path of the designer analysis comes from an external library; it is
  an input list.
- `task.runner`, `runner_occupancy`, `clone()`, `ended()` and `duration()`, used by the
  designer analysis but not defined by the simulator, are inputs of the analysis.
  `increase_pipelines` is not modelled, because its `add_task` call does not match
  the simulator's signature.
- Printing, reporting and command-line wiring: `console_run`, `print_highest_costs`,
  `get_runner_costs`, `__main__`, argparse, the Flask server and the web UI.
- The ANTLR-generated rule parser and its wrapper, which run on a foreign runtime.
- The legacy root-level `docker.py`, `job.py` and `jobs.py`: their data handling
  repeats the modelled emulator code, and the rest is subprocess and platform code.
- The Windows path separator rewrite in `do_single_include` is not modelled; paths
  are taken with `/`.
- `RESERVED_TOP_KEYS` lives in `gitlab/types.py`, which is not part of this model;
  it is a parameter.
- ConfigLoader.DoExtends: requires an acyclic `extends` graph and every non-reserved
  top-level entry to be a mapping. The source loops forever on a cycle.
- ConfigLoader.DoExtends: a mapping under `extends` fails on first reaching its job,
  with BadSyntaxError for a key that is not a job and TypeError otherwise. The source
  raises that TypeError only once all the keys are resolved jobs, so when several
  jobs are faulty it may report a different one first.
- DesignerSimulator.SimulatedResources.LoadTasks and DesignerSimulator.LoaderJob:
  a job's `needs` is a list of job names. A `needs` of `null`, a list holding a
  mapping (both TypeError in the source) and a string (whose characters the source
  looks up as job names) are not represented.
- DesignerSimulator.RunnerOf: a record's `images` setting is a boolean or absent.
  The source compares whatever value the record holds with the task's boolean, so
  a truthy non-boolean such as `1` is not represented.
- GitlabSim.Server.AddPipeline and GitlabSim.Simulation.AddPipeline: require jobs
  that have not run. Adding the same Python pipeline twice would share its job
  objects between the two runs; the model copies jobs by value.
- Yaml.In: membership compares values structurally, so Python's `1 == True` is not
  reproduced.
- DesignerSimulator.SimulatedResources.Run: bounded by a number of ticks, after
  which it reports OutOfFuel. The source loop has no such bound.
- DesignerAnalysis.SearchSim.Probe, DesignerAnalysis.SearchSim.Discover and
  DesignerAnalysis.SearchSim.Passes: bounded by a fuel count for the same reason.
- RulesSyntax.Root: the walk up parent links is cut off after a fuel count and
  reports NoRoot.
- GitlabSim: the order in which ready jobs are started within one tick is chosen
  nondeterministically. The source takes Python set order, which is not specified.
- Runner.ExecuteJob, Runner.ExecuteAll and LegacyRunner.LegacyRunner.ExecuteJob:
  require the `dependencies` among jobs to be acyclic. On a cycle the source recurses
  until Python raises RecursionError, which is not modelled. A name that is not a
  job is modelled: it stops the call with NoSuchJob after the earlier needs ran.
- LegacyRunner.LegacyRunner.ExecuteJob, LegacyRunner.LegacyRunner.ExecuteTwice,
  LegacyRunner.ExecCompletes and LegacyRunner.ExecOnce: describe the call with a
  working `load_job` (the later emulator's, raising NoSuchJob for a name that is
  not a job). As written the call raises AttributeError, which
  LegacyRunner.LegacyRunner.ExecuteJobAsWritten models.
- ConfigLoader.PyInt: `int()` is modelled for ASCII digits; the other Unicode
  decimal digits Python also accepts are not.
- Variables.ParseTemplate: follows the replacement-template rules of Python 3.12
  (numeric group references in ASCII digits only, a `\g<name>` reference with an
  identifier name raises IndexError). Identifiers are taken as ASCII letters, digits
  and `_`.
- Python's `str.isnumeric` is modelled as a non-empty run of ASCII digits, and
  `\w` as the ASCII letters, digits and `_`.

Where the code and its tests disagree, the model follows the code:
- The `glp` validator accepts `bar=` and `=foo`, which
  `emulator/gitlabemu/tests/test_glp_tools.py:39-42` expects it to refuse.
- `designer/tests/test_simulator.py` expects "stage" delays that the simulator
  never produces.
- The designer's `load_tasks` puts every task into pipeline 1.

## Findings

| source | as written | input that shows it | evidently intended | confidence | as-written member | corrected member |
|---|---|---|---|---|---|---|
| simulator/gitlabsim/sim.py:99-104 | a started job with no time remaining reports "running", and one with time remaining reports "finished" | a job that has started and has `remaining == 0` | "finished" once the remaining time reaches 0, "running" before | high, not executed | GitlabSim.StateInverted | GitlabSim.IntendedStateDone |
| gitlabemu/runner.py:33 | `execute_job` calls `configloader.load_job`, which the first-generation `configloader` module does not define, so the call raises AttributeError | any job not yet in `seen` | load the job, run what it needs, run it and record it, as the later emulator's `execute_job` does | high, not executed | LegacyRunner.LegacyRunner.ExecuteJobAsWritten | LegacyRunner.LegacyRunner.ExecuteJob |
| emulator/gitlabemu/configloader.py:89-90 | a `BadSyntaxError` for an already included file is built but never raised, so the file is loaded again | a configuration that includes the same local file twice | the repeated include is refused | high, not executed | ConfigLoader.RepeatedIncludeAccepted | ConfigLoader.RepeatedIncludeRejected |
