/**
 * The scanner's configuration: its defaults, the user's file laid over
 * them key by key, and the command-line flags laid over the result.
 * Reading and writing the file are not modelled; the parsed file is an
 * input whose absent keys are `None`.
 */
module Config {
  import opened Text

  datatype Mode = Preview | Execute

  datatype TimestampSource = Scanner | Ocr | Creation

  datatype ScanConfig = ScanConfig(
    defaultMode: Mode,
    enableOCR: bool,
    ocrLanguage: string,
    customCompanies: seq<string>,
    customDocTypes: seq<(string, string)>,
    timestampPriority: seq<TimestampSource>,
    namingPattern: string,
    enableCategories: bool,
    silent: bool,
    verbose: bool)

  /** `DEFAULT_CONFIG`. */
  const Default := ScanConfig(
    Preview, true, "deu", [], [], [Scanner, Ocr, Creation],
    "{timestamp}_{company}_{doctype}_{reference}", false, false, false)

  /** The keys present in the user's config file, each with its value. */
  datatype UserConfig = UserConfig(
    defaultMode: Option<Mode>,
    enableOCR: Option<bool>,
    ocrLanguage: Option<string>,
    customCompanies: Option<seq<string>>,
    customDocTypes: Option<seq<(string, string)>>,
    timestampPriority: Option<seq<TimestampSource>>,
    namingPattern: Option<string>,
    enableCategories: Option<bool>,
    silent: Option<bool>,
    verbose: Option<bool>)

  const NoKeys := UserConfig(None, None, None, None, None, None, None, None, None, None)

  function Or<T>(o: Option<T>, d: T): T {
    if o.Some? then o.value else d
  }

  /** `{ ...DEFAULT_CONFIG, ...userConfig }`: a key the user sets wins, every other keeps its default. */
  function Overlay(u: UserConfig): (c: ScanConfig)
    ensures c.defaultMode == (if u.defaultMode.Some? then u.defaultMode.value else Default.defaultMode)
    ensures c.enableOCR == (if u.enableOCR.Some? then u.enableOCR.value else Default.enableOCR)
    ensures c.ocrLanguage == (if u.ocrLanguage.Some? then u.ocrLanguage.value else Default.ocrLanguage)
    ensures c.customCompanies == (if u.customCompanies.Some? then u.customCompanies.value else Default.customCompanies)
    ensures c.customDocTypes == (if u.customDocTypes.Some? then u.customDocTypes.value else Default.customDocTypes)
    ensures c.timestampPriority == (if u.timestampPriority.Some? then u.timestampPriority.value else Default.timestampPriority)
    ensures c.namingPattern == (if u.namingPattern.Some? then u.namingPattern.value else Default.namingPattern)
    ensures c.enableCategories == (if u.enableCategories.Some? then u.enableCategories.value else Default.enableCategories)
    ensures c.silent == (if u.silent.Some? then u.silent.value else Default.silent)
    ensures c.verbose == (if u.verbose.Some? then u.verbose.value else Default.verbose)
  {
    ScanConfig(
      Or(u.defaultMode, Default.defaultMode),
      Or(u.enableOCR, Default.enableOCR),
      Or(u.ocrLanguage, Default.ocrLanguage),
      Or(u.customCompanies, Default.customCompanies),
      Or(u.customDocTypes, Default.customDocTypes),
      Or(u.timestampPriority, Default.timestampPriority),
      Or(u.namingPattern, Default.namingPattern),
      Or(u.enableCategories, Default.enableCategories),
      Or(u.silent, Default.silent),
      Or(u.verbose, Default.verbose))
  }

  /** `loadConfig()`, given the parsed file, or `None` when it is absent or cannot be read or parsed. */
  function LoadConfig(file: Option<UserConfig>): (c: ScanConfig)
    ensures file.None? ==> c == Default
    ensures file.Some? ==> c == Overlay(file.value)
  {
    match file
    case None => Default
    case Some(u) => Overlay(u)
  }

  /** The file `saveConfig(c)` writes, with every key present. */
  function AllKeys(c: ScanConfig): UserConfig {
    UserConfig(Some(c.defaultMode), Some(c.enableOCR), Some(c.ocrLanguage), Some(c.customCompanies),
               Some(c.customDocTypes), Some(c.timestampPriority), Some(c.namingPattern),
               Some(c.enableCategories), Some(c.silent), Some(c.verbose))
  }

  /** A file without keys loads as the defaults. */
  lemma EmptyFileLoadsDefaults()
    ensures LoadConfig(Some(NoKeys)) == Default
  {
  }

  /** A configuration written with every key loads back unchanged. */
  lemma SavedConfigLoadsBack(c: ScanConfig)
    ensures LoadConfig(Some(AllKeys(c))) == c
  {
  }

  /** The command-line flags that bear on the configuration; an absent flag is `None`. */
  datatype CliArgs = CliArgs(execute: bool, preview: bool, silent: Option<bool>, verbose: Option<bool>)

  /** `mergeWithCLI(config, args)`. */
  function MergeWithCLI(c: ScanConfig, args: CliArgs): (r: ScanConfig)
    ensures r.defaultMode == Execute <==> args.execute || (!args.preview && c.defaultMode == Execute)
    ensures r.silent == (if args.silent.Some? then args.silent.value else c.silent)
    ensures r.verbose == (if args.verbose.Some? then args.verbose.value else c.verbose)
    ensures r.(defaultMode := c.defaultMode, silent := c.silent, verbose := c.verbose) == c
  {
    c.(defaultMode := if args.execute then Execute else if args.preview then Preview else c.defaultMode,
       silent := Or(args.silent, c.silent),
       verbose := Or(args.verbose, c.verbose))
  }

  /** Merging the same flags a second time changes nothing. */
  lemma MergeIsIdempotent(c: ScanConfig, args: CliArgs)
    ensures MergeWithCLI(MergeWithCLI(c, args), args) == MergeWithCLI(c, args)
  {
  }

  /** Without flags the configuration is kept as it is. */
  lemma MergeWithoutFlags(c: ScanConfig)
    ensures MergeWithCLI(c, CliArgs(false, false, None, None)) == c
  {
  }
}
