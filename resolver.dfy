/**
 * Command resolution: which configured template runs a given path, and
 * the placeholder substitution applied to the winning template.
 */
module Resolver {
  import opened Wrappers
  import opened Strings

  /** The runner configuration: two immutable maps from key to command template. */
  datatype RunnerConfig = RunnerConfig(languages: map<string, string>, files: map<string, string>)

  /**
   * What the resolver reads off a path: its text, its parent directory
   * (absent for a path with no parent) and its extension (absent for a
   * path whose file name has none).
   */
  datatype PathInfo = PathInfo(text: string, parent: Option<string>, extension: Option<string>)

  const PathPlaceholder: string := "{path}"
  const DirPlaceholder: string := "{dir}"

  /** The directory of a path: its parent, or "." when it has none. */
  function DirText(p: PathInfo): (d: string)
    ensures p.parent.None? ==> d == "."
    ensures p.parent.Some? ==> d == p.parent.value
  {
    p.parent.GetOr(".")
  }

  /** Every `{path}` becomes the path text, then every `{dir}` becomes its directory. */
  function Substitute(template: string, p: PathInfo): string
  {
    ReplaceAll(ReplaceAll(template, PathPlaceholder, p.text), DirPlaceholder, DirText(p))
  }

  /** The key a file extension is looked up under in the `files` map. */
  function FileKey(ext: string): string
  {
    "." + ext
  }

  /**
   * The command for a path: the `files` entry for the dotted, lower-cased
   * extension wins; failing that, the `languages` entry for the bare
   * lower-cased extension; failing both, or without an extension, none.
   */
  function CommandFor(config: RunnerConfig, p: PathInfo): (r: Option<string>)
    ensures p.extension.None? ==> r.None?
    ensures p.extension.Some? && FileKey(Lower(p.extension.value)) in config.files ==>
      r == Some(Substitute(config.files[FileKey(Lower(p.extension.value))], p))
    ensures p.extension.Some? && FileKey(Lower(p.extension.value)) !in config.files ==>
      r == if Lower(p.extension.value) in config.languages
           then Some(Substitute(config.languages[Lower(p.extension.value)], p))
           else None
  {
    match p.extension
    case None => None
    case Some(e) =>
      var ext := Lower(e);
      if FileKey(ext) in config.files then Some(Substitute(config.files[FileKey(ext)], p))
      else if ext in config.languages then Some(Substitute(config.languages[ext], p))
      else None
  }

  /** A path without an extension resolves to nothing, whatever the configuration. */
  lemma NoExtensionNoCommand(config: RunnerConfig, p: PathInfo)
    requires p.extension.None?
    ensures CommandFor(config, p) == None
  {
  }

  /**
   * A hit in `files` decides the result: the `languages` map, whatever it
   * holds, makes no difference.
   */
  lemma FilesTierDominates(files: map<string, string>, langs1: map<string, string>,
                           langs2: map<string, string>, p: PathInfo)
    requires p.extension.Some? && FileKey(Lower(p.extension.value)) in files
    ensures CommandFor(RunnerConfig(langs1, files), p) == CommandFor(RunnerConfig(langs2, files), p)
    ensures CommandFor(RunnerConfig(langs1, files), p) ==
            Some(Substitute(files[FileKey(Lower(p.extension.value))], p))
  {
  }

  /**
   * Resolution misses exactly when there is no extension, or neither map
   * has an entry for it.
   */
  lemma MissCharacterized(config: RunnerConfig, p: PathInfo)
    ensures CommandFor(config, p).None? <==>
      (p.extension.None? ||
       (FileKey(Lower(p.extension.value)) !in config.files &&
        Lower(p.extension.value) !in config.languages))
  {
  }

  /** The extension's case does not matter: resolution sees it lower-cased. */
  lemma ExtensionCaseIgnored(config: RunnerConfig, p: PathInfo)
    requires p.extension.Some?
    ensures CommandFor(config, p.(extension := Some(Lower(p.extension.value)))) == CommandFor(config, p)
  {
    LowerIdempotent(p.extension.value);
  }

  /** A template that mentions neither placeholder comes back unchanged. */
  lemma SubstituteWithoutPlaceholders(template: string, p: PathInfo)
    requires !Contains(template, PathPlaceholder) && !Contains(template, DirPlaceholder)
    ensures Substitute(template, p) == template
  {
    ReplaceAbsent(template, PathPlaceholder, p.text);
    ReplaceAbsent(template, DirPlaceholder, DirText(p));
  }

  /**
   * Re-substituting with the same path is harmless once the first
   * substitution has left no placeholder behind.
   */
  lemma SubstituteStable(template: string, p: PathInfo)
    requires !Contains(Substitute(template, p), PathPlaceholder)
    requires !Contains(Substitute(template, p), DirPlaceholder)
    ensures Substitute(Substitute(template, p), p) == Substitute(template, p)
  {
    SubstituteWithoutPlaceholders(Substitute(template, p), p);
  }

  /** A placeholder on its own is replaced by the replacement text. */
  lemma PlaceholderAlone(pat: string, to: string)
    requires pat != []
    ensures ReplaceAll(pat, pat, to) == to
  {
    ReplaceLeadingMatch(pat, [], to);
    assert pat + [] == pat;
    assert to + [] == to;
  }

  /**
   * The two substitutions happen one after the other: for the template
   * `{path}` and a path text that is exactly `{dir}`, the `{dir}` brought in
   * by the first replacement is consumed by the second, and the command is
   * the directory.
   */
  lemma DirInsidePathIsReplaced(p: PathInfo)
    requires p.text == DirPlaceholder
    ensures Substitute(PathPlaceholder, p) == DirText(p)
  {
    PlaceholderAlone(PathPlaceholder, p.text);
    PlaceholderAlone(DirPlaceholder, DirText(p));
  }

  /**
   * Re-substitution is not harmless in general: for a path text of one
   * character other than `{` and `r` followed by `{path}` (such as
   * `x{path}`), substituted into the template `{path}`, a second
   * substitution gives a longer command than the first.
   */
  lemma SubstituteNotIdempotent(c: char, p: PathInfo)
    requires c != '{' && c != 'r' && p.text == [c] + PathPlaceholder
    ensures Substitute(PathPlaceholder, p) == p.text
    ensures Substitute(Substitute(PathPlaceholder, p), p) == [c] + p.text
    ensures Substitute(Substitute(PathPlaceholder, p), p) != Substitute(PathPlaceholder, p)
  {
    assert 'r' !in PathPlaceholder;
    PlaceholderAlone(PathPlaceholder, p.text);
    ReplaceMissingChar(p.text, DirPlaceholder, 'r', DirText(p));
    assert PathPlaceholder[0] != ([c] + PathPlaceholder)[0];
    ReplaceSkip(c, PathPlaceholder, PathPlaceholder, p.text);
    ReplaceMissingChar([c] + p.text, DirPlaceholder, 'r', DirText(p));
  }

  /**
   * The order of the two replacements matters: replacing `{dir}` first and
   * `{path}` second turns the template `{path}` with the path text `{dir}`
   * into `{dir}`, while the source's order gives the directory.
   */
  lemma ReplacementOrderMatters(p: PathInfo)
    requires p.text == DirPlaceholder && DirText(p) != DirPlaceholder
    ensures ReplaceAll(ReplaceAll(PathPlaceholder, DirPlaceholder, DirText(p)), PathPlaceholder, p.text) == DirPlaceholder
    ensures ReplaceAll(ReplaceAll(PathPlaceholder, DirPlaceholder, DirText(p)), PathPlaceholder, p.text) != Substitute(PathPlaceholder, p)
  {
    assert 'd' in DirPlaceholder && 'd' !in PathPlaceholder;
    ReplaceMissingChar(PathPlaceholder, DirPlaceholder, 'd', DirText(p));
    PlaceholderAlone(PathPlaceholder, p.text);
    DirInsidePathIsReplaced(p);
  }
}
