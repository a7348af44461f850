/**
 * The CLI's `processFile`: the ladder of checks between a file and its
 * rename. A missing file, an unsupported format, too little text, an
 * invalid or unchanged suggestion, preview mode, a declined dialog and an
 * existing target each stop the ladder without touching the file system;
 * only a rename that succeeds is recorded in the undo ledger.
 *
 * The extracted text, the dialog's answer, the creation date, the custom
 * companies and the clock are parameters.
 */
module CliProcess {
  import opened Text
  import Paths
  import Files
  import Undo
  import CliNames
  import CliSuggest

  /** The reasons the ladder stops with an error. */
  datatype ProcessError =
    | NotFound
    | Unsupported(ext: string)
    | NoText
    | Invalid(errors: seq<CliNames.NameError>)
    | TargetExists
    | RenameFailed

  /** The object `processFile` resolves to. */
  datatype Outcome = Outcome(success: bool, renamed: bool, oldName: string, newName: string, error: Option<ProcessError>)

  /** The formats text can be extracted from. */
  const SupportedExtensions: seq<string> := [".pdf", ".docx", ".pages", ".png", ".jpg", ".jpeg", ".txt"]

  /** Text whose trimmed length is below this is treated as no text. */
  const MinTextLength := 10

  /** The button of the confirmation dialog that accepts the rename. */
  const ConfirmButton := "Umbenennen"

  /** The lower-cased extension of the path (`path.extname(filePath).toLowerCase()`). */
  function LowerExtension(filePath: string): string {
    LowerAsciiString(Paths.Extname(filePath))
  }

  /** `!text || text.trim().length < 10`. */
  predicate TooLittleText(text: string) {
    |Trim(text)| < MinTextLength
  }

  /** Whether to rename: `execute`, or, neither executing nor silent, the dialog accepted. */
  predicate ShouldRename(execute: bool, silent: bool, dialogAnswer: string) {
    if !execute && !silent then dialogAnswer == ConfirmButton else execute
  }

  /** The inputs of one run of the ladder other than the file system and the ledger. */
  datatype Request = Request(
    filePath: string,
    preview: bool,
    execute: bool,
    silent: bool,
    text: string,
    dialogAnswer: string,
    birthtime: Option<CliSuggest.Date>,
    custom: seq<string>)

  function OriginalName(r: Request): string {
    Paths.Basename(r.filePath)
  }

  function Suggestion(r: Request): string {
    CliSuggest.SmartFilename(r.text, OriginalName(r), r.birthtime, r.custom)
  }

  /** The path the file is renamed to: its directory joined with the suggestion. */
  function NewPath(r: Request, suggestion: string): string {
    Paths.JoinPath(Paths.Dirname(r.filePath), suggestion)
  }

  /**
   * Where the ladder stops before any rename is tried, given the files that
   * exist and the name `generateSmartFilename` suggested: `Some(outcome)`
   * when it stops, `None` when it goes on to rename.
   */
  function Stop(files: set<string>, r: Request, suggestion: string): (o: Option<Outcome>)
    ensures o.Some? ==> !o.value.renamed
    ensures o.Some? ==> (!o.value.success <==> o.value.error.Some? && !o.value.error.value.NoText?)
  {
    var name := OriginalName(r);
    if r.filePath !in files then Some(Outcome(false, false, name, "", Some(NotFound)))
    else if LowerExtension(r.filePath) !in SupportedExtensions then
      Some(Outcome(false, false, name, "", Some(Unsupported(LowerExtension(r.filePath)))))
    else if TooLittleText(r.text) then Some(Outcome(true, false, name, "", Some(NoText)))
    else SuggestionStop(files, r, suggestion)
  }

  /** The rungs after the text is extracted: the suggestion's validity, novelty, the mode, the dialog, the target. */
  function SuggestionStop(files: set<string>, r: Request, suggestion: string): (o: Option<Outcome>)
    ensures o.Some? ==> !o.value.renamed
    ensures o.Some? ==> (!o.value.success <==> o.value.error.Some? && !o.value.error.value.NoText?)
  {
    var name := OriginalName(r);
    var errors := CliNames.NameErrors(suggestion);
    if errors != [] then Some(Outcome(false, false, name, suggestion, Some(Invalid(errors))))
    else if name == suggestion then Some(Outcome(true, false, name, suggestion, None))
    else ModeStop(files, r, suggestion)
  }

  /** The rungs of a valid new name: preview, the dialog, and a taken target. */
  function ModeStop(files: set<string>, r: Request, suggestion: string): (o: Option<Outcome>)
    ensures o.Some? ==> !o.value.renamed
    ensures o.Some? ==> (!o.value.success <==> o.value.error.Some? && !o.value.error.value.NoText?)
  {
    var name := OriginalName(r);
    if r.preview then Some(Outcome(true, false, name, suggestion, None))
    else if !ShouldRename(r.execute, r.silent, r.dialogAnswer) then Some(Outcome(true, false, name, suggestion, None))
    else if NewPath(r, suggestion) in files then Some(Outcome(false, false, name, suggestion, Some(TargetExists)))
    else None
  }

  /** The whole ladder: the outcome, the files afterwards and the ledger afterwards. */
  function Processed(files: set<string>, locked: set<string>, ledger: Undo.UndoState, r: Request, suggestion: string, now: int):
    (res: (Outcome, set<string>, Undo.UndoState))
    ensures !res.0.renamed ==> res.1 == files && res.2 == ledger
    ensures res.0.renamed ==>
      res.1 == files - {r.filePath} + {NewPath(r, suggestion)} &&
      res.2 == Undo.Recorded(ledger, r.filePath, NewPath(r, suggestion), now)
  {
    match Stop(files, r, suggestion)
    case Some(o) => (o, files, ledger)
    case None =>
      var name := OriginalName(r);
      var target := NewPath(r, suggestion);
      if Files.RenameSucceeds(files, locked, r.filePath, target) then
        (Outcome(true, true, name, suggestion, None), files - {r.filePath} + {target},
         Undo.Recorded(ledger, r.filePath, target, now))
      else
        (Outcome(false, false, name, suggestion, Some(RenameFailed)), files, ledger)
  }

  /**
   * A file is renamed exactly when it exists, has a supported format and
   * enough text, its suggestion is valid and new, preview is off, the
   * rename is wanted, the target is free, and the file system allows it.
   */
  lemma RenamedExactlyWhenAllChecksPass(files: set<string>, locked: set<string>, ledger: Undo.UndoState,
                                        r: Request, suggestion: string, now: int)
    ensures Processed(files, locked, ledger, r, suggestion, now).0.renamed <==>
      r.filePath in files &&
      LowerExtension(r.filePath) in SupportedExtensions &&
      !TooLittleText(r.text) &&
      CliNames.NameErrors(suggestion) == [] &&
      OriginalName(r) != suggestion &&
      !r.preview &&
      ShouldRename(r.execute, r.silent, r.dialogAnswer) &&
      NewPath(r, suggestion) !in files &&
      Files.RenameSucceeds(files, locked, r.filePath, NewPath(r, suggestion))
  {
  }

  /** A silent run that does not execute never renames, whatever the dialog would have said. */
  lemma SilentWithoutExecuteNeverRenames(files: set<string>, locked: set<string>, ledger: Undo.UndoState,
                                         r: Request, suggestion: string, now: int)
    requires r.silent && !r.execute
    ensures !Processed(files, locked, ledger, r, suggestion, now).0.renamed
    ensures Processed(files, locked, ledger, r, suggestion, now).1 == files
  {
    RenamedExactlyWhenAllChecksPass(files, locked, ledger, r, suggestion, now);
  }

  /** Only the failures are reported as unsuccessful: a skip for lack of text, a kept name, preview or a declined dialog succeed. */
  lemma ErrorsAreFailures(files: set<string>, locked: set<string>, ledger: Undo.UndoState,
                          r: Request, suggestion: string, now: int)
    ensures var o := Processed(files, locked, ledger, r, suggestion, now).0;
      !o.success <==> o.error.Some? && !o.error.value.NoText?
  {
    var stop := Stop(files, r, suggestion);
    if stop.None? {
      var o := Processed(files, locked, ledger, r, suggestion, now).0;
      assert o.success <==> o.renamed;
    }
  }

  /** The last rung: `fs.renameSync` and, when it does not throw, `recordRename`. */
  method RenameAndRecord(fs: Files.FileSystem, ledger: Undo.Ledger, src: string, dst: string,
                         name: string, suggestion: string, now: int) returns (o: Outcome)
    modifies fs, ledger
    ensures var ok := Files.RenameSucceeds(old(fs.files), fs.locked, src, dst);
      o == (if ok then Outcome(true, true, name, suggestion, None)
            else Outcome(false, false, name, suggestion, Some(RenameFailed))) &&
      fs.files == (if ok then old(fs.files) - {src} + {dst} else old(fs.files)) &&
      ledger.State() == (if ok then Undo.Recorded(old(ledger.State()), src, dst, now) else old(ledger.State()))
  {
    var ok := fs.Rename(src, dst);
    if ok {
      ledger.RecordRename(src, dst, now);
      return Outcome(true, true, name, suggestion, None);
    }
    return Outcome(false, false, name, suggestion, Some(RenameFailed));
  }

  /**
   * `processFile(filePath, {preview, execute, silent})` on the file system
   * `fs`, recording a successful rename in `ledger` at time `now`.
   */
  method ProcessFile(fs: Files.FileSystem, ledger: Undo.Ledger, r: Request, now: int) returns (o: Outcome)
    modifies fs, ledger
    ensures (o, fs.files, ledger.State()) == Processed(old(fs.files), fs.locked, old(ledger.State()), r, Suggestion(r), now)
  {
    var stop, suggestion := Screen(fs, r);
    if stop.Some? {
      return stop.value;
    }
    var newPath := Paths.JoinPath(Paths.Dirname(r.filePath), suggestion);
    o := RenameAndRecord(fs, ledger, r.filePath, newPath, Paths.Basename(r.filePath), suggestion, now);
  }

  /** The rungs before the rename: the file, its format and its text, then those of the suggestion. */
  method Screen(fs: Files.FileSystem, r: Request) returns (stop: Option<Outcome>, suggestion: string)
    ensures stop == Stop(fs.files, r, Suggestion(r))
    ensures stop.None? ==> suggestion == Suggestion(r)
  {
    var found := fs.Exists(r.filePath);
    var name := Paths.Basename(r.filePath);
    if !found {
      return Some(Outcome(false, false, name, "", Some(NotFound))), "";
    }
    var ext := LowerAsciiString(Paths.Extname(r.filePath));
    if ext !in SupportedExtensions {
      return Some(Outcome(false, false, name, "", Some(Unsupported(ext)))), "";
    }
    if |Trim(r.text)| < MinTextLength {
      return Some(Outcome(true, false, name, "", Some(NoText))), "";
    }
    suggestion := CliSuggest.GenerateSmartFilename(r.text, name, r.birthtime, r.custom);
    stop := ScreenSuggestion(fs, r, suggestion);
  }

  /** The rungs of the suggestion: valid and new, then those of the mode. */
  method ScreenSuggestion(fs: Files.FileSystem, r: Request, suggestion: string) returns (stop: Option<Outcome>)
    ensures stop == SuggestionStop(fs.files, r, suggestion)
  {
    var name := Paths.Basename(r.filePath);
    var validation := CliNames.ValidateFilename(suggestion);
    if !validation.valid {
      return Some(Outcome(false, false, name, suggestion, Some(Invalid(validation.errors))));
    }
    if name == suggestion {
      return Some(Outcome(true, false, name, suggestion, None));
    }
    stop := ScreenMode(fs, r, suggestion);
  }

  /** The rungs of the mode: preview, then the dialog unless executing or silent, then a taken target. */
  method ScreenMode(fs: Files.FileSystem, r: Request, suggestion: string) returns (stop: Option<Outcome>)
    ensures stop == ModeStop(fs.files, r, suggestion)
  {
    var name := Paths.Basename(r.filePath);
    if r.preview {
      return Some(Outcome(true, false, name, suggestion, None));
    }
    var shouldRename := r.execute;
    if !r.execute && !r.silent {
      shouldRename := r.dialogAnswer == ConfirmButton;
    }
    if !shouldRename {
      return Some(Outcome(true, false, name, suggestion, None));
    }
    var newPath := Paths.JoinPath(Paths.Dirname(r.filePath), suggestion);
    var taken := fs.Exists(newPath);
    if taken {
      return Some(Outcome(false, false, name, suggestion, Some(TargetExists)));
    }
    return None;
  }
}
