/**
 * Start-up configuration: `get_env_var` and the block that reads the five
 * environment variables (src/telegram_to_email.py, lines 13-42).  The process
 * environment is a map from names to values; `sys.exit(1)` is the `Err` case.
 */
module Config {
  import opened Wrappers
  import opened PyStr
  import opened Decimal

  type Env = map<string, string>

  /** Why start-up stops with `sys.exit(1)`. */
  datatype ConfigError =
    | Unset(name: string)         // `os.getenv` gave `None`
    | Malformed(literal: string)  // `int()` raised `ValueError` on this literal

  /** What `get_env_var` returns, depending on its flags. */
  datatype EnvValue = IntValue(i: int) | ListValue(ints: seq<int>) | StrValue(s: string)

  /** The settings the rest of the program reads. */
  datatype Configuration = Configuration(
    apiId: int,
    apiHash: string,
    sessionName: string,
    targetChatIds: seq<int>,
    toEmail: string)

  /** `int(literal)`, with its `ValueError` naming the literal. */
  function ToInt(literal: string): (r: Result<int, ConfigError>)
    ensures r.Ok? <==> ParseInt(literal).Some?
    ensures r.Ok? ==> ParseInt(literal) == Some(r.value)
    ensures r.Err? ==> r.error == Malformed(literal)
  {
    match ParseInt(literal)
    case None => Err(Malformed(literal))
    case Some(i) => Ok(i)
  }

  /** One comma-separated piece of the list: `int(x.strip())`. */
  function PieceToInt(piece: string): Result<int, ConfigError> {
    ToInt(Strip(piece))
  }

  /**
   * A list comprehension whose element expression may raise: the results in
   * order, or the exception of the first element that raises.
   */
  function MapOrFail<E>(pieces: seq<string>, f: string -> Result<int, E>): (r: Result<seq<int>, E>)
    ensures r.Ok? <==> forall i :: 0 <= i < |pieces| ==> f(pieces[i]).Ok?
    ensures r.Ok? ==> |r.value| == |pieces|
    ensures r.Ok? ==> forall i :: 0 <= i < |pieces| ==> f(pieces[i]) == Ok(r.value[i])
    ensures r.Err? ==> exists i :: 0 <= i < |pieces| && f(pieces[i]) == Err(r.error)
  {
    if pieces == [] then Ok([])
    else
      match f(pieces[0])
      case Err(e) => Err(e)
      case Ok(x) =>
        match MapOrFail(pieces[1..], f)
        case Err(e) =>
          assert forall i :: 0 <= i < |pieces| - 1 ==> pieces[1..][i] == pieces[i + 1];
          Err(e)
        case Ok(xs) =>
          assert forall i :: 1 <= i < |pieces| ==> pieces[i] == pieces[1..][i - 1];
          Ok([x] + xs)
  }

  /** The error of a failed comprehension is that of the first element, in order, that fails. */
  lemma {:induction false} MapOrFailFirstError<E>(pieces: seq<string>, f: string -> Result<int, E>, k: nat)
    requires k < |pieces| && f(pieces[k]).Err?
    requires forall j :: 0 <= j < k ==> f(pieces[j]).Ok?
    ensures MapOrFail(pieces, f) == Err(f(pieces[k]).error)
  {
    if k > 0 {
      MapOrFailFirstError(pieces[1..], f, k - 1);
    }
  }

  /** The list branch of `get_env_var`: `[int(x.strip()) for x in value.split(',')]`. */
  function ParseIntList(value: string): (r: Result<seq<int>, ConfigError>)
    ensures r.Err? ==> r.error.Malformed?
  {
    MapOrFail(Split(value, ','), PieceToInt)
  }

  /**
   * A list parses exactly when every piece parses once stripped; the values
   * are those of the pieces, in order; otherwise start-up reports the stripped
   * text of the first piece that does not parse.
   */
  lemma ParseIntListPieces(value: string)
    ensures ParseIntList(value).Err? ==>
      exists i :: 0 <= i < |Split(value, ',')| && ParseInt(Strip(Split(value, ',')[i])).None?
    ensures (forall i :: 0 <= i < |Split(value, ',')| ==> ParseInt(Strip(Split(value, ',')[i])).Some?) ==>
      ParseIntList(value).Ok?
    ensures ParseIntList(value).Ok? ==>
      && |ParseIntList(value).value| == |Split(value, ',')|
      && forall i :: 0 <= i < |Split(value, ',')| ==>
           ParseInt(Strip(Split(value, ',')[i])) == Some(ParseIntList(value).value[i])
  {
    var pieces, r := Split(value, ','), ParseIntList(value);
    if r.Ok? {
      forall i | 0 <= i < |pieces|
        ensures ParseInt(Strip(pieces[i])) == Some(r.value[i])
      {
        assert PieceToInt(pieces[i]) == Ok(r.value[i]);
      }
    } else {
      var k :| 0 <= k < |pieces| && PieceToInt(pieces[k]) == Err(r.error);
      assert ParseInt(Strip(pieces[k])).None?;
    }
  }

  /** The reported literal is the stripped text of the first piece that is not an integer. */
  lemma ParseIntListFirstError(value: string, k: nat)
    requires k < |Split(value, ',')|
    requires ParseInt(Strip(Split(value, ',')[k])).None?
    requires forall j :: 0 <= j < k ==> ParseInt(Strip(Split(value, ',')[j])).Some?
    ensures ParseIntList(value) == Err(Malformed(Strip(Split(value, ',')[k])))
  {
    var pieces := Split(value, ',');
    forall j | 0 <= j < k
      ensures PieceToInt(pieces[j]).Ok?
    {
    }
    MapOrFailFirstError(pieces, PieceToInt, k);
  }

  /** A parsed list has one entry per comma-separated piece: one more than the commas. */
  lemma ParseIntListLength(value: string)
    ensures ParseIntList(value).Ok? ==> |ParseIntList(value).value| == Count(value, ',') + 1
  {
    SplitCount(value, ',');
  }

  /** A piece that is empty or all whitespace, as in `"1,,2"` or `"1,"`, stops start-up. */
  lemma ParseIntListBlankPiece(value: string, k: nat)
    requires k < |Split(value, ',')| && AllSpace(Split(value, ',')[k])
    ensures ParseIntList(value).Err?
  {
    var piece := Split(value, ',')[k];
    StripIsCore(piece, Whitespace);
    assert Strip(piece) == [];
    assert PieceToInt(piece).Err?;
  }

  /**
   * Writing integers with `str()`, each optionally surrounded by whitespace,
   * and joining them with commas, gives a value the list branch parses back
   * to those integers.
   */
  lemma ParseIntListJoin(pieces: seq<string>, ids: seq<int>)
    requires |pieces| == |ids| >= 1
    requires forall i :: 0 <= i < |pieces| ==> ',' !in pieces[i] && Strip(pieces[i]) == ToString(ids[i])
    ensures ParseIntList(Join(pieces, ',')) == Ok(ids)
  {
    SplitJoin(pieces, ',');
    forall i | 0 <= i < |pieces|
      ensures PieceToInt(pieces[i]) == Ok(ids[i])
    {
    }
    var r := MapOrFail(pieces, PieceToInt);
    assert r.Ok?;
    assert r.value == ids;
  }

  /** The value `"1,2,3"` form: `str()` of each id joined by commas. */
  function JoinIds(ids: seq<int>): (r: string)
    requires |ids| >= 1
    ensures ParseIntList(r) == Ok(ids)
  {
    var pieces := seq(|ids|, i requires 0 <= i < |ids| => ToString(ids[i]));
    forall i | 0 <= i < |pieces|
      ensures ',' !in pieces[i] && Strip(pieces[i]) == ToString(ids[i])
    {
      ParseUnpadded(pieces[i]);
    }
    ParseIntListJoin(pieces, ids);
    Join(pieces, ',')
  }

  /** `get_env_var(name, is_int, is_list)`. */
  function GetEnvVar(env: Env, name: string, isInt: bool, isList: bool): (r: Result<EnvValue, ConfigError>)
    ensures name !in env <==> r == Err(Unset(name))
    ensures isInt ==> (r.Ok? <==> name in env && ParseInt(env[name]).Some?)
    ensures isInt && r.Ok? ==> r.value.IntValue? && ParseInt(env[name]) == Some(r.value.i)
    ensures !isInt && isList ==> (r.Ok? <==> name in env && ParseIntList(env[name]).Ok?)
    ensures !isInt && isList && r.Ok? ==> r.value.ListValue? && ParseIntList(env[name]) == Ok(r.value.ints)
    ensures !isInt && !isList && name in env ==> r == Ok(StrValue(env[name]))
  {
    if name !in env then Err(Unset(name))
    else
      var value := env[name];
      if isInt then
        match ToInt(value)
        case Err(e) => Err(e)
        case Ok(i) => Ok(IntValue(i))
      else if isList then
        match ParseIntList(value)
        case Err(e) => Err(e)
        case Ok(ints) => Ok(ListValue(ints))
      else Ok(StrValue(value))
  }

  /**
   * An ASCII separator (U+001C to U+001F) in front of a number: the integer
   * branch rejects the value, because `int()` does not skip the separator,
   * while the list branch strips it from the piece first and reads the number.
   */
  lemma SeparatorIntVersusList(env: Env, name: string, c: char, n: int)
    requires name in env && c in {'\U{1C}', '\U{1D}', '\U{1E}', '\U{1F}'}
    requires env[name] == [c] + ToString(n)
    ensures GetEnvVar(env, name, true, false) == Err(Malformed(env[name]))
    ensures GetEnvVar(env, name, false, true) == Ok(ListValue([n]))
  {
    var v := env[name];
    SeparatorNotSkipped(c, n);
    assert ',' !in v by {
      assert v[0] == c;
      forall i | 1 <= i < |v| ensures v[i] != ',' {
        assert v[i] == ToString(n)[i - 1];
      }
    }
    SplitWithoutSep(v, ',');
    assert PieceToInt(v) == Ok(n);
    var r := ParseIntList(v);
    assert forall i :: 0 <= i < |[v]| ==> PieceToInt([v][i]).Ok?;
    assert r.Ok? && |r.value| == 1 && PieceToInt([v][0]) == Ok(r.value[0]);
    assert r.value == [n];
  }

  /** One `get_env_var` call of the configuration block: the variable and its flags. */
  datatype Variable = Variable(name: string, isInt: bool, isList: bool)

  /** The five calls, in the order the block makes them. */
  const Variables: seq<Variable> := [
    Variable("API_ID", true, false),
    Variable("API_HASH", false, false),
    Variable("SESSION_NAME", false, false),
    Variable("TARGET_CHAT_IDS", false, true),
    Variable("TO_EMAIL", false, false)
  ]

  function Read(env: Env, v: Variable): Result<EnvValue, ConfigError> {
    GetEnvVar(env, v.name, v.isInt, v.isList)
  }

  /** The configuration block: the five reads in order; the first failure ends start-up. */
  function LoadConfig(env: Env): Result<Configuration, ConfigError> {
    var apiId :- Read(env, Variables[0]);
    var apiHash :- Read(env, Variables[1]);
    var sessionName :- Read(env, Variables[2]);
    var targetChatIds :- Read(env, Variables[3]);
    var toEmail :- Read(env, Variables[4]);
    Ok(Configuration(apiId.i, apiHash.s, sessionName.s, targetChatIds.ints, toEmail.s))
  }

  /** The error of the first of `vars` whose read fails, if any. */
  function FirstError(env: Env, vars: seq<Variable>): Option<ConfigError> {
    if vars == [] then None
    else
      match Read(env, vars[0])
      case Err(e) => Some(e)
      case Ok(_) => FirstError(env, vars[1..])
  }

  /** Start-up fails exactly when some read fails, and then with the error of the first one. */
  lemma LoadConfigError(env: Env)
    ensures LoadConfig(env).Err? <==> FirstError(env, Variables).Some?
    ensures LoadConfig(env).Err? ==> LoadConfig(env).error == FirstError(env, Variables).value
  {
    var v1 := Variables[1..];
    var v2 := v1[1..];
    var v3 := v2[1..];
    var v4 := v3[1..];
    assert v1[0] == Variables[1] && v2[0] == Variables[2] && v3[0] == Variables[3] && v4[0] == Variables[4];
    assert v4[1..] == [];
    assert FirstError(env, v4) == if Read(env, v4[0]).Err? then Some(Read(env, v4[0]).error) else None;
    assert FirstError(env, v3) == if Read(env, v3[0]).Err? then Some(Read(env, v3[0]).error) else FirstError(env, v4);
    assert FirstError(env, v2) == if Read(env, v2[0]).Err? then Some(Read(env, v2[0]).error) else FirstError(env, v3);
    assert FirstError(env, v1) == if Read(env, v1[0]).Err? then Some(Read(env, v1[0]).error) else FirstError(env, v2);
  }

  /**
   * Start-up succeeds exactly when all five variables are set, `API_ID` is an
   * integer and `TARGET_CHAT_IDS` a comma-separated list of integers; the
   * configuration then holds their values.
   */
  lemma LoadConfigSucceeds(env: Env)
    ensures LoadConfig(env).Ok? <==>
      && "API_ID" in env && "API_HASH" in env && "SESSION_NAME" in env
      && "TARGET_CHAT_IDS" in env && "TO_EMAIL" in env
      && ParseInt(env["API_ID"]).Some?
      && ParseIntList(env["TARGET_CHAT_IDS"]).Ok?
    ensures LoadConfig(env).Ok? ==>
      var c := LoadConfig(env).value;
      && ParseInt(env["API_ID"]) == Some(c.apiId)
      && c.apiHash == env["API_HASH"]
      && c.sessionName == env["SESSION_NAME"]
      && ParseIntList(env["TARGET_CHAT_IDS"]) == Ok(c.targetChatIds)
      && c.toEmail == env["TO_EMAIL"]
  {
  }
}
