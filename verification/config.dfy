/**
 `ConfigWrapper` from klippy/klippy.py: a read-only view of one section of
 the parsed configuration file, with a caller-supplied default for every
 option the section does not define.
 */
module Config {
  import opened Results
  import opened ValueParse

  /** The parsed file: section name to option name to raw (uninterpolated) text. */
  type ConfigStore = map<string, map<string, string>>

  /** A view of `fileconfig` scoped to `section`. */
  datatype ConfigWrapper = ConfigWrapper(fileconfig: ConfigStore, section: string)

  /** `fileconfig.has_section`. */
  predicate HasSection(store: ConfigStore, section: string)
  {
    section in store
  }

  /** `fileconfig.has_option`: false for a missing section rather than an error. */
  predicate HasOption(w: ConfigWrapper, option: string)
  {
    w.section in w.fileconfig && option in w.fileconfig[w.section]
  }

  /** The raw text the file gives the option in the wrapper's section. */
  function Stored(w: ConfigWrapper, option: string): string
    requires HasOption(w, option)
  {
    w.fileconfig[w.section][option]
  }

  /** `get`: the stored text, or the caller's default when the option is absent. */
  function Get(w: ConfigWrapper, option: string, default: Option<string>): (r: Option<string>)
    ensures !HasOption(w, option) ==> r == default
    ensures HasOption(w, option) ==> r == Some(w.fileconfig[w.section][option])
  {
    if !HasOption(w, option) then default else Some(Stored(w, option))
  }

  /** `getint`: the default when absent, else the stored text read as an integer. */
  function GetInt(w: ConfigWrapper, option: string, default: Option<int>): (r: Result<Option<int>, ParseError>)
    ensures !HasOption(w, option) ==> r == Ok(default)
    ensures HasOption(w, option) ==>
              match ParseInt(Stored(w, option))
              case Ok(n) => r == Ok(Some(n))
              case Err(e) => r == Err(e)
  {
    if !HasOption(w, option) then Ok(default)
    else match ParseInt(Stored(w, option))
      case Ok(n) => Ok(Some(n))
      case Err(e) => Err(e)
  }

  /** `getfloat`: the default when absent, else the stored text read as a number. */
  function GetFloat(w: ConfigWrapper, option: string, default: Option<real>): (r: Result<Option<real>, ParseError>)
    ensures !HasOption(w, option) ==> r == Ok(default)
    ensures HasOption(w, option) ==>
              match ParseFloat(Stored(w, option))
              case Ok(x) => r == Ok(Some(x))
              case Err(e) => r == Err(e)
  {
    if !HasOption(w, option) then Ok(default)
    else match ParseFloat(Stored(w, option))
      case Ok(x) => Ok(Some(x))
      case Err(e) => Err(e)
  }

  /** `getboolean`: the default when absent, else the stored text read as a boolean. */
  function GetBoolean(w: ConfigWrapper, option: string, default: Option<bool>): (r: Result<Option<bool>, ParseError>)
    ensures !HasOption(w, option) ==> r == Ok(default)
    ensures HasOption(w, option) ==>
              match ParseBool(Stored(w, option))
              case Ok(b) => r == Ok(Some(b))
              case Err(e) => r == Err(e)
  {
    if !HasOption(w, option) then Ok(default)
    else match ParseBool(Stored(w, option))
      case Ok(b) => Ok(Some(b))
      case Err(e) => Err(e)
  }

  /** `getsection`: a wrapper for another section over the same parsed file. */
  function GetSection(w: ConfigWrapper, section: string): (r: ConfigWrapper)
    ensures r.fileconfig == w.fileconfig
    ensures r.section == section
  {
    ConfigWrapper(w.fileconfig, section)
  }

  /**
   A wrapper obtained through `getsection` reads exactly what the file holds
   for that section, whichever section the original wrapper was scoped to.
   */
  lemma GetSectionReadsThatSection(w: ConfigWrapper, section: string, option: string, default: Option<string>)
    ensures Get(GetSection(w, section), option, default)
            == if section in w.fileconfig && option in w.fileconfig[section]
               then Some(w.fileconfig[section][option]) else default
  {
  }

  /**
   Each typed accessor is `get` without a default followed by its
   conversion: an absent option gives the default, present text is parsed,
   and a conversion error is passed on.
   */
  lemma TypedAccessorsParseGet(w: ConfigWrapper, option: string, n: Option<int>, x: Option<real>, b: Option<bool>)
    ensures GetInt(w, option, n) == match Get(w, option, None)
                                    case None => Ok(n)
                                    case Some(t) => (match ParseInt(t) case Ok(v) => Ok(Some(v)) case Err(e) => Err(e))
    ensures GetFloat(w, option, x) == match Get(w, option, None)
                                      case None => Ok(x)
                                      case Some(t) => (match ParseFloat(t) case Ok(v) => Ok(Some(v)) case Err(e) => Err(e))
    ensures GetBoolean(w, option, b) == match Get(w, option, None)
                                        case None => Ok(b)
                                        case Some(t) => (match ParseBool(t) case Ok(v) => Ok(Some(v)) case Err(e) => Err(e))
  {
  }

  /**
   The typed accessors parse the text `get` returns: a value written by
   Python's `str` reads back as itself, whatever default is offered.
   */
  lemma TypedAccessorsReadBackStr(w: ConfigWrapper, option: string, dn: Option<int>, dx: Option<real>, db: Option<bool>)
    ensures forall n: int :: Get(w, option, None) == Some(IntToString(n))
                             ==> GetInt(w, option, dn) == Ok(Some(n))
                                 && GetFloat(w, option, dx) == Ok(Some(n as real))
    ensures forall b: bool :: Get(w, option, None) == Some(BoolToString(b))
                              ==> GetBoolean(w, option, db) == Ok(Some(b))
  {
    forall n: int | Get(w, option, None) == Some(IntToString(n))
      ensures GetInt(w, option, dn) == Ok(Some(n))
      ensures GetFloat(w, option, dx) == Ok(Some(n as real))
    {
      IntRoundTrip(n);
      FloatAgreesWithInt(n);
    }
    forall b: bool | Get(w, option, None) == Some(BoolToString(b))
      ensures GetBoolean(w, option, db) == Ok(Some(b))
    {
      BoolRoundTrip(b);
    }
  }
}
