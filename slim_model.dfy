/** The SLiMModel wrapper: argument checks of the constructor and the
    assembly of the `slim -s SEED -d DEF ... SCRIPT` argument list in run.
    Creating, writing and deleting the temporary script file, running the
    `slim` binary and drawing a random seed are outside the model: the
    temporary path, the script check's verdict, the process outcome and the
    drawn seed are parameters. */
module SlimModel {
  import opened Wrappers
  import opened Decimal
  import opened SlimConstants

  /** The `model_source` argument: a `str` path, a `Path`, or any other object. */
  datatype SourceArg = StrPath(path: string) | PathObject(path: string) | OtherObject

  /** The `seed` argument of run: absent, one that `int(seed)` converts, or one it rejects. */
  datatype SeedArg = NoSeed | Seed(value: int) | NotAnInteger

  /** The `constants` argument of run: absent, a dict (its items in
      insertion order), or some other object. */
  datatype ConstantsArg = NoConstants | Dict(items: seq<(string, PyValue)>) | NotADict

  /** The `-d` arguments for the constants, in dict order, each made by
      `serialise`; the first constant it rejects stops them with its error. */
  function Collect(items: seq<(string, PyValue)>,
                   serialise: (string, PyValue) -> Result<string, SlimError>)
    : Result<seq<string>, SlimError>
  {
    if |items| == 0 then Ok([])
    else
      match Collect(items[..|items| - 1], serialise)
      case Err(e) => Err(e)
      case Ok(defs) =>
        var (key, value) := items[|items| - 1];
        match serialise(key, value)
        case Err(e) => Err(e)
        case Ok(d) => Ok(defs + ["-d", d])
  }

  /** The definitions run builds, with parse_key_value serialising. */
  function Definitions(items: seq<(string, PyValue)>): Result<seq<string>, SlimError>
  {
    Collect(items, ParseKeyValue)
  }

  lemma {:induction false} CollectOk(items: seq<(string, PyValue)>,
                                     serialise: (string, PyValue) -> Result<string, SlimError>)
    ensures Collect(items, serialise).Ok? <==>
      forall k :: 0 <= k < |items| ==> serialise(items[k].0, items[k].1).Ok?
  {
    if |items| > 0 {
      var init := items[..|items| - 1];
      CollectOk(init, serialise);
      assert forall k :: 0 <= k < |init| ==> init[k] == items[k];
    }
  }

  lemma {:induction false} CollectLayout(items: seq<(string, PyValue)>,
                                         serialise: (string, PyValue) -> Result<string, SlimError>)
    requires Collect(items, serialise).Ok?
    ensures |Collect(items, serialise).value| == 2 * |items|
    ensures forall k :: 0 <= k < |items| ==>
      && serialise(items[k].0, items[k].1).Ok?
      && Collect(items, serialise).value[2 * k] == "-d"
      && Collect(items, serialise).value[2 * k + 1] == serialise(items[k].0, items[k].1).value
  {
    if |items| > 0 {
      var init := items[..|items| - 1];
      CollectLayout(init, serialise);
      assert forall k :: 0 <= k < |init| ==> init[k] == items[k];
    }
  }

  lemma {:induction false} CollectFirstError(items: seq<(string, PyValue)>, j: nat,
                                             serialise: (string, PyValue) -> Result<string, SlimError>)
    requires j < |items| && serialise(items[j].0, items[j].1).Err?
    requires forall k :: 0 <= k < j ==> serialise(items[k].0, items[k].1).Ok?
    ensures Collect(items, serialise) == Err(serialise(items[j].0, items[j].1).error)
  {
    var init := items[..|items| - 1];
    if j < |init| {
      CollectFirstError(init, j, serialise);
    } else {
      CollectOk(init, serialise);
      assert forall k :: 0 <= k < |init| ==> init[k] == items[k];
    }
  }

  /** The argument list handed to the slim process. */
  function Command(seed: int, items: seq<(string, PyValue)>, scriptPath: string): Result<seq<string>, SlimError>
  {
    match Definitions(items)
    case Err(e) => Err(e)
    case Ok(defs) => Ok(["slim", "-s", IntText(seed)] + defs + [scriptPath])
  }

  /** The definitions succeed exactly when every constant serialises;
      each constant contributes a `-d` and its definition, in dict order. */
  lemma DefinitionsShape(items: seq<(string, PyValue)>)
    ensures Definitions(items).Ok? <==>
      forall k :: 0 <= k < |items| ==> ParseKeyValue(items[k].0, items[k].1).Ok?
    ensures Definitions(items).Ok? ==>
      && |Definitions(items).value| == 2 * |items|
      && forall k :: 0 <= k < |items| ==>
           && Definitions(items).value[2 * k] == "-d"
           && Definitions(items).value[2 * k + 1] == ParseKeyValue(items[k].0, items[k].1).value
  {
    CollectOk(items, ParseKeyValue);
    if Definitions(items).Ok? {
      CollectLayout(items, ParseKeyValue);
    }
  }

  /** When a constant cannot be serialised, the error names the first such key. */
  lemma DefinitionsFirstError(items: seq<(string, PyValue)>, j: nat)
    requires j < |items| && ParseKeyValue(items[j].0, items[j].1).Err?
    requires forall k :: 0 <= k < j ==> ParseKeyValue(items[k].0, items[k].1).Ok?
    ensures Definitions(items) == Err(UnsupportedType(items[j].0))
  {
    CollectFirstError(items, j, ParseKeyValue);
  }

  /** The command is `slim -s SEED`, then `-d DEF` per constant, then the
      script path: four plus twice the number of constants arguments. */
  lemma CommandShape(seed: int, items: seq<(string, PyValue)>, scriptPath: string)
    requires Command(seed, items, scriptPath).Ok?
    ensures var c := Command(seed, items, scriptPath).value;
      && |c| == 4 + 2 * |items|
      && c[..3] == ["slim", "-s", IntText(seed)]
      && c[|c| - 1] == scriptPath
      && forall k :: 0 <= k < |items| ==>
           && ParseKeyValue(items[k].0, items[k].1).Ok?
           && c[3 + 2 * k] == "-d" && c[4 + 2 * k] == ParseKeyValue(items[k].0, items[k].1).value
  {
    CommandLayout(seed, items, scriptPath, ParseKeyValue);
  }

  lemma CommandLayout(seed: int, items: seq<(string, PyValue)>, scriptPath: string,
                      serialise: (string, PyValue) -> Result<string, SlimError>)
    requires Collect(items, serialise).Ok?
    ensures var c := ["slim", "-s", IntText(seed)] + Collect(items, serialise).value + [scriptPath];
      && |c| == 4 + 2 * |items|
      && c[..3] == ["slim", "-s", IntText(seed)]
      && c[|c| - 1] == scriptPath
      && forall k :: 0 <= k < |items| ==>
           && serialise(items[k].0, items[k].1).Ok?
           && c[3 + 2 * k] == "-d" && c[4 + 2 * k] == serialise(items[k].0, items[k].1).value
  {
    CollectLayout(items, serialise);
    var defs := Collect(items, serialise).value;
    var head := ["slim", "-s", IntText(seed)];
    var c := head + defs + [scriptPath];
    assert c[..3] == head;
    forall k | 0 <= k < |items|
      ensures c[3 + 2 * k] == defs[2 * k] && c[4 + 2 * k] == defs[2 * k + 1]
    {
    }
  }

  class SLiMModel {
    /** Path of the temporary file that holds the script. */
    const tempFilepath: string
    /** The script text written into that file. */
    const script: string
    /** `last_seed`: the seed of the last run that got past the seed check. */
    var lastSeed: Option<int>
    /** `_last_seed`: the seed argument of the last run that assembled its command. */
    var lastSeedArg: Option<SeedArg>
    /** The arguments of the last completed slim process, standing for `last_result`. */
    var lastCommand: Option<seq<string>>

    constructor (path: string, text: string)
      ensures tempFilepath == path && script == text
      ensures lastSeed == None && lastSeedArg == None && lastCommand == None
    {
      tempFilepath := path;
      script := text;
      lastSeed := None;
      lastSeedArg := None;
      lastCommand := None;
    }

    /** `SLiMModel(model_source, model_code)`. `sourceText` is what reading
        the file named by `model_source` yields, `tempPath` the temporary
        file's name and `scriptOk` whether `slim -c` accepts the script. */
    static method Create(modelSource: Option<SourceArg>, modelCode: Option<string>,
                         sourceText: string, tempPath: string, scriptOk: bool)
      returns (r: Result<SLiMModel, SlimError>)
      ensures modelSource.Some? && modelCode.Some? ==> r == Err(BothSources)
      ensures modelSource.None? && modelCode.None? ==> r == Err(NoSource)
      ensures modelSource.Some? && modelCode.None? && modelSource.value.OtherObject? ==> r == Err(BadSourceType)
      ensures r.Err? && r.error.IsTypeError() <==>
        || (modelSource.Some? == modelCode.Some?)
        || (modelSource.Some? && modelSource.value.OtherObject?)
      ensures r.Ok? <==>
        && (modelSource.Some? != modelCode.Some?)
        && !(modelSource.Some? && modelSource.value.OtherObject?)
        && scriptOk
      ensures r.Err? && !r.error.IsTypeError() ==> r.error == ModelCheckFailed
      ensures r.Ok? ==>
        && fresh(r.value)
        && r.value.tempFilepath == tempPath
        && r.value.script == (if modelCode.Some? then modelCode.value else sourceText)
        && r.value.lastSeed == None && r.value.lastCommand == None
    {
      if modelSource.Some? && modelCode.Some? {
        return Err(BothSources);
      }
      if modelSource.None? && modelCode.None? {
        return Err(NoSource);
      }
      var text: string;
      if modelCode.Some? {
        text := modelCode.value;
      } else if modelSource.value.StrPath? || modelSource.value.PathObject? {
        text := sourceText;
      } else {
        return Err(BadSourceType);
      }
      if !scriptOk {
        return Err(ModelCheckFailed);
      }
      var m := new SLiMModel(tempPath, text);
      r := Ok(m);
    }

    /** The argument list run assembles: `slim -s SEED`, then one `-d`
        pair per constant, serialised in dict order, then the script file. */
    static method AssembleCommand(s: int, items: seq<(string, PyValue)>, scriptPath: string)
      returns (r: Result<seq<string>, SlimError>)
      ensures r == Command(s, items, scriptPath)
    {
      var commands := ["slim"];
      commands := commands + ["-s", IntText(s)];
      var i := 0;
      while i < |items|
        invariant 0 <= i <= |items|
        invariant Definitions(items[..i]).Ok?
        invariant commands == ["slim", "-s", IntText(s)] + Definitions(items[..i]).value
      {
        var (key, value) := items[i];
        var d := ParseKeyValue(key, value);
        if d.Err? {
          DefinitionsFirstErrorFrom(items, i);
          return Err(d.error);
        }
        DefinitionsStep(items, i);
        commands := commands + ["-d", d.value];
        i := i + 1;
      }
      assert items[..i] == items;
      r := Ok(commands + [scriptPath]);
    }

    /** `run(seed, constants, check)`. `drawnSeed` is the seed numpy would
        draw when none is given; `slimFails` says whether the process exits
        non-zero. On success the result is the argument list the process ran. */
    method Run(seed: SeedArg, constants: ConstantsArg, check: bool, drawnSeed: int, slimFails: bool)
      returns (r: Result<seq<string>, SlimError>)
      requires 1 <= drawnSeed < 0x1_0000_0000
      modifies this
      ensures constants.NotADict? ==> r == Err(ConstantsNotDict) && unchanged(this)
      ensures !constants.NotADict? && seed.NotAnInteger? ==> r == Err(SeedNotInteger) && unchanged(this)
      ensures !constants.NotADict? && !seed.NotAnInteger? ==>
        var s := if seed.Seed? then seed.value else drawnSeed;
        var items := if constants.Dict? then constants.items else [];
        && lastSeed == Some(s)
        && (Command(s, items, tempFilepath).Err? ==>
              r == Err(Command(s, items, tempFilepath).error)
              && lastSeedArg == old(lastSeedArg) && lastCommand == old(lastCommand))
        && (Command(s, items, tempFilepath).Ok? ==>
              lastSeedArg == Some(seed)
              && (if check && slimFails
                  then r == Err(SlimFailed) && lastCommand == old(lastCommand)
                  else r == Ok(Command(s, items, tempFilepath).value)
                       && lastCommand == Some(Command(s, items, tempFilepath).value)))
    {
      var items: seq<(string, PyValue)>;
      match constants {
        case NotADict => return Err(ConstantsNotDict);
        case NoConstants => items := [];
        case Dict(d) => items := d;
      }
      var s: int;
      match seed {
        case NotAnInteger => return Err(SeedNotInteger);
        case NoSeed => s := drawnSeed;
        case Seed(v) => s := v;
      }
      lastSeed := Some(s);
      var command := AssembleCommand(s, items, tempFilepath);
      if command.Err? {
        return Err(command.error);
      }
      var commands := command.value;
      lastSeedArg := Some(seed);
      if check && slimFails {
        return Err(SlimFailed);
      }
      lastCommand := Some(commands);
      r := Ok(commands);
    }
  }

  /** One more constant that serialises adds its `-d` pair at the end. */
  lemma DefinitionsStep(items: seq<(string, PyValue)>, i: nat)
    requires i < |items| && Definitions(items[..i]).Ok?
    requires ParseKeyValue(items[i].0, items[i].1).Ok?
    ensures Definitions(items[..i + 1])
         == Ok(Definitions(items[..i]).value + ["-d", ParseKeyValue(items[i].0, items[i].1).value])
  {
    assert items[..i + 1][..i] == items[..i];
  }

  /** If every constant before `i` serialises and the `i`-th does not, the
      definitions fail with the `i`-th's error. */
  lemma DefinitionsFirstErrorFrom(items: seq<(string, PyValue)>, i: nat)
    requires i < |items| && Definitions(items[..i]).Ok?
    requires ParseKeyValue(items[i].0, items[i].1).Err?
    ensures Definitions(items) == Err(ParseKeyValue(items[i].0, items[i].1).error)
  {
    var init := items[..i];
    CollectOk(init, ParseKeyValue);
    forall k | 0 <= k < i ensures ParseKeyValue(items[k].0, items[k].1).Ok? {
      assert init[k] == items[k];
    }
    CollectFirstError(items, i, ParseKeyValue);
  }
}
