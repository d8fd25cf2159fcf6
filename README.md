# code-runner: command resolution and tokenizing, modelled in Dafny

This project models the core of the "code runner" editor extension. Given a
file path, the extension picks a shell command template from its configuration,
fills in the path, splits the result into a program and its arguments, runs it
in the file's directory and reports standard output or standard error.

The model covers:

- **Configuration** (`Resolver.RunnerConfig`): two immutable maps from key to
  command template, `files` (keys such as `.py`) and `languages` (keys such as
  `py`).
- **Resolution** (`Resolver.CommandFor`, src/lib.rs:68-94): the extension is
  lower-cased (`Strings.Lower`, src/lib.rs:69). The `files` entry for
  `"." + ext` (`Resolver.FileKey`, src/lib.rs:72) wins. Failing that, the `languages` entry for
  the bare `ext` is used. Failing both, or when the path has no extension,
  there is no command. There is no third, project-type tier in this code.
- **Substitution** (`Resolver.Substitute`, src/lib.rs:74-80 and 86-92): every
  `{path}` becomes the path text, and then every `{dir}` becomes the parent
  directory, or `.` when there is none (`Resolver.DirText`, src/lib.rs:76-79).
  Both tiers use this same substitution. Replace-all (`Strings.ReplaceAll`,
  Rust's `str::replace` as called at src/lib.rs:74 and 86, twice on each line) is a
  left-to-right scan for non-overlapping
  occurrences. An empty pattern matches at every character boundary.
- **Tokenizing** (`Tokenizer.Tokenize`, the loop of src/lib.rs:101-126, proved
  against the functional `Tokenizer.Tokens`): `Tokenizer.Step` is one evaluation
  of the `match` for one character (src/lib.rs:107-122), `Tokenizer.Scan` is the `for` loop over
  the characters (src/lib.rs:106), and `Tokenizer.Finish` is the final flush
  (src/lib.rs:124-126). `"` toggles quoting, and a closing quote emits the
  token being built. An ASCII space outside quotes ends a token. Tabs and all
  other characters join the token. Empty tokens are never emitted. An
  unterminated quote is flushed at the end of input.
- **Running** (`Runner.Run`, src/lib.rs:96-145): the first token is the program and the rest are
  its arguments. The error messages are `No matching run command found.` and
  `Empty command string`. The process is started in the path's directory by a
  launcher passed in as a parameter. Only exit code zero counts as success, and
  yields standard output. Any other end yields standard error. A launch failure
  yields its message.

Substitution is sometimes described as idempotent and order-independent. In
this code it is neither in general, because the two replacements run one after
the other on the growing text. For the template `{path}` and a path text that
is exactly `{dir}`, the command is the directory, because the `{dir}` brought
in by the path is replaced too (`Resolver.DirInsidePathIsReplaced`). Replacing
`{dir}` first would give `{dir}` instead, so the order matters
(`Resolver.ReplacementOrderMatters`). A path such as
`x{path}`, substituted into the template `{path}`, gives `x{path}`, and a
second substitution gives `xx{path}` (`Resolver.SubstituteNotIdempotent`, for
a path text of one character other than `{` and `r` followed by `{path}`).
Re-substitution is harmless when the first pass leaves no placeholder behind
(`Resolver.SubstituteStable`). That condition is sufficient, not necessary: for
the template `{path}`, a path text that is exactly `{path}` also survives a
second pass unchanged. The
model follows the code.

Modules: `Wrappers` (Option, Result), `Strings`, `Resolver`, `Tokenizer`,
`Runner`.

## Model

| member | source | states |
|---|---|---|
| `Strings.LowerChar` | src/lib.rs:69 | an ASCII upper-case letter becomes its lower-case letter, every other character is kept, and the result is never upper-case |
| `Strings.Lower` | src/lib.rs:69 | definitional (its ensures is its own comprehension): lower-casing keeps the length and maps each character independently; the property proved about it is `Strings.LowerIdempotent` |
| `Strings.LowerIdempotent` | src/lib.rs:69 | lower-casing an already lower-cased extension changes nothing |
| `Strings.ReplaceAbsent` | src/lib.rs:74-80 | replacing a non-empty pattern that does not occur leaves the text unchanged |
| `Strings.ReplaceBySelf` | src/lib.rs:74 | replacing every occurrence of a pattern by itself leaves the text unchanged, empty pattern included |
| `Strings.ReplaceLeadingMatch` | src/lib.rs:74 | unfolding helper (restates the third branch of `ReplaceAll`): an occurrence at the front is replaced and the scan resumes right after it |
| `Strings.ReplaceSkip` | src/lib.rs:74 | unfolding helper (restates the fourth branch of `ReplaceAll`): a character where no occurrence starts is copied and the scan moves one character on |
| `Strings.ReplaceAfterPlain` | src/lib.rs:74 | text that lacks the pattern's first character passes through unchanged ahead of the rest |
| `Strings.ReplaceMissingChar` | src/lib.rs:74-80 | a text missing one of the pattern's characters is left unchanged |
| `Resolver.DirText` | src/lib.rs:76-79 | the directory is the parent when there is one and `.` otherwise |
| `Resolver.CommandFor` | src/lib.rs:68-94 | no extension gives no command; a `files` hit on the dotted lower-cased extension gives that template substituted; otherwise the `languages` entry for the bare lower-cased extension, substituted, or no command |
| `Resolver.NoExtensionNoCommand` | src/lib.rs:69 | corollary of `CommandFor`'s first case: a path without an extension resolves to nothing under every configuration |
| `Resolver.FilesTierDominates` | src/lib.rs:72-82 | with a `files` hit the result is that template substituted, and the `languages` map makes no difference |
| `Resolver.MissCharacterized` | src/lib.rs:68-94 | corollary of `CommandFor`'s case split, stated as one equivalence: resolution misses if and only if there is no extension or neither map has an entry for it |
| `Resolver.ExtensionCaseIgnored` | src/lib.rs:69 | replacing the extension by its lower-cased form does not change the result |
| `Resolver.SubstituteWithoutPlaceholders` | src/lib.rs:74-80 | a template with neither `{path}` nor `{dir}` comes back unchanged |
| `Resolver.SubstituteStable` | src/lib.rs:74-80 | substituting again with the same path changes nothing when the first substitution left no placeholder |
| `Resolver.PlaceholderAlone` | src/lib.rs:74 | a placeholder on its own is replaced by the replacement text |
| `Resolver.DirInsidePathIsReplaced` | src/lib.rs:74-80 | for the template `{path}` and a path text that is exactly `{dir}`, the command is the directory, because `{path}` is replaced first |
| `Resolver.ReplacementOrderMatters` | src/lib.rs:74-80 | for the template `{path}` and a path text that is exactly `{dir}`, replacing `{dir}` first and `{path}` second gives `{dir}`, which differs from the source's result whenever the directory is not `{dir}` |
| `Resolver.SubstituteNotIdempotent` | src/lib.rs:74-80 | for a path text of one character other than `{` and `r` followed by `{path}`, such as `x{path}`, substituting into the template `{path}` a second time gives a different, longer command |
| `Tokenizer.ScanSnoc` | src/lib.rs:106-123 | processing one more character is one more step of the scanner |
| `Tokenizer.Tokenize` | src/lib.rs:101-126 | the loop yields exactly the tokens of the functional scanner, none of them empty and none containing `"` |
| `Tokenizer.ScanKeepsClean` | src/lib.rs:106-123 | the scanner never emits an empty token or one holding `"`, and never puts `"` into the token being built |
| `Tokenizer.TokensClean` | src/lib.rs:106-126 | no token is empty and no token contains `"` |
| `Tokenizer.ScanConcat` | src/lib.rs:106-126 | from any state, what is emitted joined end to end is what was collected plus the input without quotes and without spaces outside quotes |
| `Tokenizer.TokensConcat` | src/lib.rs:106-126 | the tokens joined end to end equal the input with every `"` and every space outside quotes removed, so nothing else is lost or reordered, even after an unterminated quote |
| `Tokenizer.ScanWords` | src/lib.rs:108-120 | on quote-free input the scanner emits what splitting on spaces and dropping empty pieces gives |
| `Tokenizer.QuoteFreeTokensAreWords` | src/lib.rs:108-120 | without `"` in the input, the tokens are the input split on spaces with empty pieces dropped |
| `Tokenizer.SingleWord` | src/lib.rs:115-121 | a word with no space and no quote is one token, so tabs do not separate |
| `Tokenizer.OpeningQuoteJoins` | src/lib.rs:108-114 | an opening quote does not end the token being built, so `ab"c d"` is the single token `abc d` |
| `Tokenizer.QuotedThenWord` | src/lib.rs:108-120 | a quoted region, a space and a plain word give two tokens, the first keeping its spaces |
| `Tokenizer.ClosingQuoteEndsToken` | src/lib.rs:108-113 | a closing quote ends the token being built, so a quoted region followed directly by a plain word, with no space between, gives two tokens |
| `Tokenizer.ClosingQuoteExample` | src/lib.rs:106-126 | `"a"b` gives `["a", "b"]` |
| `Tokenizer.QuotedExample` | src/lib.rs:106-126 | `"a b" c` gives `["a b", "c"]` |
| `Tokenizer.ThreeWords` | src/lib.rs:115-126 | three plain words separated by single spaces give those three tokens in order |
| `Tokenizer.PlainExample` | src/lib.rs:106-126 | `run --flag value` gives `["run", "--flag", "value"]` |
| `Runner.SplitProgram` | src/lib.rs:128-131 | an empty token list fails with `Empty command string`; otherwise the program followed by the arguments is the token list |
| `Runner.Classify` | src/lib.rs:140-144 | the result is a success exactly when the process exited with code zero, carrying standard output, and otherwise carries standard error |
| `Runner.Outcome` | src/lib.rs:134-144 | a launch failure ends the run with its message; a finished process is classified by its exit status |
| `Runner.Run` | src/lib.rs:96-145 | no command gives `No matching run command found.`; no tokens give `Empty command string`; otherwise the first token is launched with the rest as arguments in the path's directory and the outcome is classified |
| `Runner.PythonScenario` | src/lib.rs:72-80 | a `files` entry `python {path}` for `.py` resolves a `.py` path whose text has no `{` to `python` followed by the path text, whatever `languages` holds |

## Left out

- Loading the configuration (src/lib.rs:57-66): this is file reads, locating the executable and TOML parsing. The configuration is a given immutable value.
- Starting the process (src/lib.rs:133-138): this is an operating-system call. `Runner.Run` takes the launcher as a function parameter. The launcher receives the program, the arguments and the working directory, and returns the process output or the system's error message.
- Lossy UTF-8 decoding of the output streams (src/lib.rs:141, 143): this is library behaviour. `Runner.ProcessOutput` holds already-decoded text.
- Strings.Lower: it lower-cases ASCII letters only, while the source's `to_lowercase` also maps non-ASCII upper-case letters. Unicode case mapping is library behaviour.
- Strings.LowerChar: it is ASCII only, for the same reason.
- Path handling (`PathBuf::extension`, `parent`, `to_string_lossy`): this is platform path semantics. The extension, parent and text of a path are inputs in `Resolver.PathInfo`. So the model does not say when a path has an extension or a parent. For example, on Unix a bare file name has the empty path as parent, not none.
- The editor-extension glue (src/lib.rs:15-54, 148): registration, the slash-command name check, the "No file path provided" and "Unknown command" replies, and the "Error: " prefix on failures. This is host-plugin code around `run`.
- Process concurrency, blocking and stream draining: these are outside a sequential model.
