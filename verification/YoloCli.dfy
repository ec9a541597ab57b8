/**
 Reading a `yolo` command into an argument map, and printing the command a stored
 argument map stands for. A printed command reads back as the arguments it was
 printed from.
 */
module YoloCli {
  import opened Joining
  import opened StringOrder
  import opened Whitespace
  import opened Wrappers
  import opened YoloText
  import opened YoloValues

  type Arg = Keyed<Value>

  // ----- Reading ---------------------------------------------------------------------

  predicate IsSubcommand(token: string) {
    token == "yolo" || token == "train" || token == "export" || token == "detect" || token == "obb"
  }

  /** `key=value` with a key; further `=` belong to the value. */
  predicate IsAssignment(token: string) {
    '=' in token && IndexOf(token, '=') > 0
  }

  function ReadArg(token: string): Arg
    requires IsAssignment(token)
  {
    var i := IndexOf(token, '=');
    Keyed(token[..i], ReadValue(token[..i], token[i + 1..]))
  }

  /** The last value each key is given. */
  function ArgsOf(tokens: seq<string>): map<string, Value> {
    if tokens == [] then map[]
    else
      var before, token := ArgsOf(tokens[..|tokens| - 1]), tokens[|tokens| - 1];
      if IsAssignment(token) then before[ReadArg(token).key := ReadArg(token).value] else before
  }

  /** Everything that is neither a subcommand nor an assignment. */
  function StrayOf(tokens: seq<string>): seq<string> {
    if tokens == [] then []
    else
      var before, token := StrayOf(tokens[..|tokens| - 1]), tokens[|tokens| - 1];
      if IsSubcommand(token) || IsAssignment(token) then before else before + [token]
  }

  lemma LastToken(before: seq<string>, token: string)
    ensures ArgsOf(before + [token])
            == if IsAssignment(token) then ArgsOf(before)[ReadArg(token).key := ReadArg(token).value] else ArgsOf(before)
    ensures StrayOf(before + [token])
            == if IsSubcommand(token) || IsAssignment(token) then StrayOf(before) else StrayOf(before) + [token]
  {
    assert (before + [token])[..|before|] == before;
  }

  lemma SubcommandsAssignNothing(token: string)
    requires IsSubcommand(token)
    ensures '=' !in token
  {
  }

  lemma TokenIsSkipped(before: seq<string>, token: string)
    requires IsSubcommand(token)
    ensures ArgsOf(before + [token]) == ArgsOf(before) && StrayOf(before + [token]) == StrayOf(before)
  {
    SubcommandsAssignNothing(token);
    LastToken(before, token);
  }

  lemma TokenIsStray(before: seq<string>, token: string)
    requires !IsSubcommand(token) && !IsAssignment(token)
    ensures ArgsOf(before + [token]) == ArgsOf(before) && StrayOf(before + [token]) == StrayOf(before) + [token]
  {
    LastToken(before, token);
  }

  lemma TokenAssigns(before: seq<string>, token: string, key: string, value: string)
    requires IsAssignment(token) && key == token[..IndexOf(token, '=')] && value == token[IndexOf(token, '=') + 1..]
    ensures ArgsOf(before + [token]) == ArgsOf(before)[key := ReadValue(key, value)]
    ensures StrayOf(before + [token]) == StrayOf(before)
  {
    LastToken(before, token);
  }

  method ParseYoloCli(cli: string) returns (args: map<string, Value>, strayTokens: seq<string>)
    ensures args == ArgsOf(Tokens(cli)) && strayTokens == StrayOf(Tokens(cli))
  {
    args, strayTokens := map[], [];
    var tokens := Words(DropComments(JoinContinuations(cli)));
    for i := 0 to |tokens|
      invariant args == ArgsOf(tokens[..i]) && strayTokens == StrayOf(tokens[..i])
    {
      var token := tokens[i];
      assert tokens[..i + 1] == tokens[..i] + [token];
      if IsSubcommand(token) {
        TokenIsSkipped(tokens[..i], token);
        continue;
      }
      if '=' !in token {
        TokenIsStray(tokens[..i], token);
        strayTokens := strayTokens + [token];
        continue;
      }
      var at := IndexOf(token, '=');
      var key, value := token[..at], token[at + 1..];
      if key == "" {
        TokenIsStray(tokens[..i], token);
        strayTokens := strayTokens + [token];
        continue;
      }
      TokenAssigns(tokens[..i], token, key, value);
      args := args[key := ReadValue(key, value)];
    }
    assert tokens[..|tokens|] == tokens;
  }

  // ----- Printing --------------------------------------------------------------------

  /** What the platform supplies beside the stored arguments. */
  datatype Context = Context(data: Option<string>, model: Option<string>)

  predicate Truthy(v: Value) {
    match v
    case Null => false
    case Bool(b) => b
    case Number(n) => n != Int(0)
    case List(_) => true
    case Str(s) => s != ""
  }

  /** The value an argument list gives a key. */
  function Find(args: seq<Arg>, key: string): Option<Value> {
    if args == [] then None
    else
      var last := args[|args| - 1];
      if last.key == key then Some(last.value) else Find(args[..|args| - 1], key)
  }

  function Without(args: seq<Arg>, keys: set<string>): seq<Arg> {
    if args == [] then []
    else
      var before, last := Without(args[..|args| - 1], keys), args[|args| - 1];
      if last.key in keys then before else before + [last]
  }

  function Named(args: seq<Arg>, key: string): seq<Arg> {
    match Find(args, key)
    case Some(v) => [Keyed(key, v)]
    case None => []
  }

  function Truthful(key: string, v: Option<Value>): seq<Arg> {
    if v.Some? && Truthy(v.value) then [Keyed(key, v.value)] else []
  }

  const WIZARD_ONLY_KEYS := {"yolo_version", "yolo_size"}

  function ModelOf(hyper: seq<Arg>, ctx: Context): Option<Value> {
    if ctx.model.Some? then Some(Str(ctx.model.value)) else Find(hyper, "model")
  }

  function DataOf(ctx: Context): Option<Value> {
    if ctx.data.Some? then Some(Str(ctx.data.value)) else None
  }

  /** What is trained, then the three everyone looks for, then the rest by name. */
  function Arguments(hyper: seq<Arg>, ctx: Context): seq<Arg> {
    var rest := Without(hyper, WIZARD_ONLY_KEYS + {"model"});
    Truthful("model", ModelOf(hyper, ctx)) + Truthful("data", DataOf(ctx))
    + Named(rest, "epochs") + Named(rest, "imgsz") + Named(rest, "batch")
    + Sort(Without(rest, {"epochs", "imgsz", "batch"}))
  }

  function ArgText(a: Arg): string {
    a.key + ("=" + Format(a.value))
  }

  function ArgTexts(args: seq<Arg>): (texts: seq<string>)
    ensures |texts| == |args| && forall i :: 0 <= i < |args| ==> texts[i] == ArgText(args[i])
  {
    seq(|args|, i requires 0 <= i < |args| => ArgText(args[i]))
  }

  function CommandText(hyper: seq<Arg>, ctx: Context): string {
    "yolo train" + Lines(ArgTexts(Arguments(hyper, ctx)))
  }

  lemma {:induction false} JoinIsLines(head: string, words: seq<string>)
    ensures Join([head] + words, " \\\n  ") == head + Lines(words)
    decreases |words|
  {
    if words == [] {
      assert [head] + words == [head] && head + "" == head;
    } else {
      assert ([head] + words)[1..] == [words[0]] + words[1..];
      JoinIsLines(words[0], words[1..]);
    }
  }

  lemma {:induction false} FindWithout(args: seq<Arg>, keys: set<string>, key: string)
    ensures Find(Without(args, keys), key) == if key in keys then None else Find(args, key)
  {
    if args != [] {
      FindWithout(args[..|args| - 1], keys, key);
      var before := Without(args[..|args| - 1], keys);
      assert (before + [args[|args| - 1]])[..|before|] == before;
    }
  }

  lemma {:induction false} WithoutTwice(args: seq<Arg>, k: set<string>, l: set<string>)
    ensures Without(Without(args, k), l) == Without(args, k + l)
  {
    if args != [] {
      WithoutTwice(args[..|args| - 1], k, l);
      var before := Without(args[..|args| - 1], k);
      assert (before + [args[|args| - 1]])[..|before|] == before;
    }
  }

  lemma {:induction false} WithoutAbsent(args: seq<Arg>, key: string)
    requires Find(args, key).None?
    ensures Without(args, {key}) == args
  {
    if args != [] {
      WithoutAbsent(args[..|args| - 1], key);
      assert args == args[..|args| - 1] + [args[|args| - 1]];
    }
  }

  /** One of the three arguments that have a fixed place, if it is there. */
  method PushNamed(parts: seq<string>, hp: seq<Arg>, key: string) returns (parts': seq<string>, hp': seq<Arg>)
    ensures parts' == parts + ArgTexts(Named(hp, key))
    ensures hp' == Without(hp, {key})
  {
    parts', hp' := parts, hp;
    var v := Find(hp, key);
    if v.Some? {
      parts' := parts + [ArgText(Keyed(key, v.value))];
      hp' := Without(hp, {key});
    } else {
      WithoutAbsent(hp, key);
    }
  }

  /** A pushed argument; nothing for a value that is missing, empty, zero or false. */
  method PushTruthful(parts: seq<string>, key: string, v: Option<Value>) returns (r: seq<string>)
    ensures r == parts + ArgTexts(Truthful(key, v))
  {
    r := parts;
    if v.Some? && Truthy(v.value) {
      r := r + [ArgText(Keyed(key, v.value))];
    }
  }

  method PushAll(parts: seq<string>, args: seq<Arg>) returns (r: seq<string>)
    ensures r == parts + ArgTexts(args)
  {
    r := parts;
    for i := 0 to |args|
      invariant r == parts + ArgTexts(args[..i])
    {
      r := r + [ArgText(args[i])];
      Grow(parts, args[..i], [args[i]]);
      assert args[..i + 1] == args[..i] + [args[i]];
    }
    assert args[..|args|] == args;
  }

  lemma Grow(parts: seq<string>, done: seq<Arg>, more: seq<Arg>)
    ensures parts + ArgTexts(done + more) == (parts + ArgTexts(done)) + ArgTexts(more)
  {
    assert ArgTexts(done + more) == ArgTexts(done) + ArgTexts(more);
  }

  lemma FixedPlaces(rest: seq<Arg>)
    ensures Find(Without(rest, {"epochs"}), "imgsz") == Find(rest, "imgsz")
    ensures var hp := Without(Without(rest, {"epochs"}), {"imgsz"});
            && Find(hp, "batch") == Find(rest, "batch")
            && Without(hp, {"batch"}) == Without(rest, {"epochs", "imgsz", "batch"})
  {
    FindWithout(rest, {"epochs"}, "imgsz");
    WithoutTwice(rest, {"epochs"}, {"imgsz"});
    FindWithout(rest, {"epochs"} + {"imgsz"}, "batch");
    WithoutTwice(rest, {"epochs"} + {"imgsz"}, {"batch"});
    assert {"epochs"} + {"imgsz"} + {"batch"} == {"epochs", "imgsz", "batch"};
  }

  /** The arguments everyone looks for, out of the ones still to print. */
  method PushFixedPlaces(parts: seq<string>, rest: seq<Arg>, ghost done: seq<Arg>) returns (r: seq<string>, hp: seq<Arg>)
    requires parts == ["yolo train"] + ArgTexts(done)
    ensures r == ["yolo train"] + ArgTexts(done + Named(rest, "epochs") + Named(rest, "imgsz") + Named(rest, "batch"))
    ensures hp == Without(rest, {"epochs", "imgsz", "batch"})
  {
    FixedPlaces(rest);
    r, hp := PushNamed(parts, rest, "epochs");
    Grow(["yolo train"], done, Named(rest, "epochs"));
    ghost var done1 := done + Named(rest, "epochs");
    r, hp := PushNamed(r, hp, "imgsz");
    Grow(["yolo train"], done1, Named(rest, "imgsz"));
    ghost var done2 := done1 + Named(rest, "imgsz");
    r, hp := PushNamed(r, hp, "batch");
    Grow(["yolo train"], done2, Named(rest, "batch"));
  }

  method BuildYoloCommand(hyper: seq<Arg>, ctx: Context) returns (text: string)
    ensures text == CommandText(hyper, ctx)
  {
    var hp := Without(hyper, WIZARD_ONLY_KEYS);
    var model := if ctx.model.Some? then Some(Str(ctx.model.value)) else Find(hp, "model");
    hp := Without(hp, {"model"});
    FindWithout(hyper, WIZARD_ONLY_KEYS, "model");
    WithoutTwice(hyper, WIZARD_ONLY_KEYS, {"model"});

    var parts := PushTruthful(["yolo train"], "model", model);
    ghost var subject := Truthful("model", model);
    Grow(["yolo train"], subject, Truthful("data", DataOf(ctx)));
    parts := PushTruthful(parts, "data", DataOf(ctx));
    subject := subject + Truthful("data", DataOf(ctx));
    ghost var fixed := subject + Named(hp, "epochs") + Named(hp, "imgsz") + Named(hp, "batch");
    parts, hp := PushFixedPlaces(parts, hp, subject);
    Grow(["yolo train"], fixed, Sort(hp));
    parts := PushAll(parts, Sort(hp));
    JoinIsLines("yolo train", ArgTexts(fixed + Sort(hp)));
    text := Join(parts, " \\\n  ");
  }

  // ----- A printed command reads back -----------------------------------------------

  /** An argument that can be written as one token and keeps its value. */
  predicate Printable(a: Arg) {
    && Word(a.key) && '=' !in a.key
    && ValidValue(a.value) && ReadsBack(a.key, a.value)
    && (a.value.Str? ==> Unbroken(a.value.s))
  }

  /** What a printed command says about a key. */
  function Expected(hyper: seq<Arg>, ctx: Context, key: string): Option<Value> {
    if key == "model" then
      var model := ModelOf(hyper, ctx);
      if model.Some? && Truthy(model.value) then model else None
    else if key in WIZARD_ONLY_KEYS then None
    else if key == "data" && Find(hyper, key).None? && DataOf(ctx).Some? && Truthy(DataOf(ctx).value) then DataOf(ctx)
    else Find(hyper, key)
  }

  lemma WordOfParts(key: string, text: string, w: string)
    requires Word(key) && Unbroken(text) && w == key + ("=" + text)
    ensures Word(w)
  {
    forall i | 0 <= i < |w|
      ensures NotSpace(w[i]) && w[i] != '#'
    {
      if i < |key| {
        assert w[i] == key[i];
      } else if i > |key| {
        assert w[i] == text[i - |key| - 1];
      }
    }
  }

  lemma ArgTextReads(a: Arg)
    requires Printable(a)
    ensures Word(ArgText(a)) && IsAssignment(ArgText(a)) && ReadArg(ArgText(a)) == a
  {
    CutAt(a.key, '=', Format(a.value));
    ValueReadsBackExactly(a.key, a.value);
    FormatUnbroken(a.value);
    WordOfParts(a.key, Format(a.value), ArgText(a));
  }

  /** A map and an argument list say the same. */
  ghost predicate Agree(m: map<string, Value>, args: seq<Arg>) {
    forall k: string :: (k in m <==> Find(args, k).Some?) && (k in m ==> Find(args, k) == Some(m[k]))
  }

  lemma OneMoreArg(m: map<string, Value>, args: seq<Arg>, n: nat)
    requires n < |args| && Agree(m, args[..n])
    ensures Agree(m[args[n].key := args[n].value], args[..n + 1])
  {
    assert args[..n + 1][..n] == args[..n];
  }

  lemma {:induction false} ArgsOfTexts(args: seq<Arg>, n: nat, tokens: seq<string>, head: seq<string>)
    requires n <= |args| && forall i :: 0 <= i < n ==> Printable(args[i])
    requires tokens == head + ArgTexts(args)[..n]
    requires ArgsOf(head) == map[] && StrayOf(head) == []
    ensures StrayOf(tokens) == [] && Agree(ArgsOf(tokens), args[..n])
  {
    if n == 0 {
      assert tokens == head;
    } else {
      var before := head + ArgTexts(args)[..n - 1];
      ArgsOfTexts(args, n - 1, before, head);
      TextsGrow(head, args, n - 1);
      ArgTokenReads(args, n - 1, before, tokens);
    }
  }

  lemma TextsGrow(head: seq<string>, args: seq<Arg>, n: nat)
    requires n < |args|
    ensures head + ArgTexts(args)[..n + 1] == (head + ArgTexts(args)[..n]) + [ArgText(args[n])]
  {
  }

  lemma ArgTokenReads(args: seq<Arg>, n: nat, before: seq<string>, tokens: seq<string>)
    requires n < |args| && Printable(args[n]) && tokens == before + [ArgText(args[n])]
    requires StrayOf(before) == [] && Agree(ArgsOf(before), args[..n])
    ensures StrayOf(tokens) == [] && Agree(ArgsOf(tokens), args[..n + 1])
  {
    ArgTextReads(args[n]);
    LastToken(before, ArgText(args[n]));
    OneMoreArg(ArgsOf(before), args, n);
  }

  lemma HeadAssignsNothing()
    ensures ArgsOf(["yolo", "train"]) == map[] && StrayOf(["yolo", "train"]) == []
  {
    SubcommandsAssignNothing("yolo");
    SubcommandsAssignNothing("train");
    LastToken([], "yolo");
    LastToken(["yolo"], "train");
    assert [] + ["yolo"] == ["yolo"] && ["yolo"] + ["train"] == ["yolo", "train"];
  }

  lemma {:induction false} FindAppend(a: seq<Arg>, b: seq<Arg>, key: string)
    ensures Find(a + b, key) == if Find(b, key).Some? then Find(b, key) else Find(a, key)
  {
    if b == [] {
      assert a + b == a;
    } else {
      FindAppend(a, b[..|b| - 1], key);
      assert (a + b)[..|a + b| - 1] == a + b[..|b| - 1];
    }
  }

  lemma {:induction false} FindIsMember(args: seq<Arg>, key: string, v: Value)
    requires Distinct(args)
    ensures Find(args, key) == Some(v) <==> Keyed(key, v) in args
  {
    if args != [] {
      var n := |args| - 1;
      FindIsMember(args[..n], key, v);
      assert args == args[..n] + [args[n]];
    }
  }

  lemma {:induction false} WithoutIsDistinct(args: seq<Arg>, keys: set<string>)
    requires Distinct(args)
    ensures Distinct(Without(args, keys))
    ensures forall a :: a in Without(args, keys) <==> a in args && a.key !in keys
  {
    if args != [] {
      var n := |args| - 1;
      WithoutIsDistinct(args[..n], keys);
      assert args == args[..n] + [args[n]];
      assert forall i :: 0 <= i < n ==> args[..n][i].key != args[n].key;
    }
  }

  lemma FindSort(args: seq<Arg>, key: string)
    requires Distinct(args)
    ensures Find(Sort(args), key) == Find(args, key)
  {
    SortKeeps(args);
    AscendingIsDistinct(Sort(args));
    forall v
      ensures Find(Sort(args), key) == Some(v) <==> Find(args, key) == Some(v)
    {
      FindIsMember(Sort(args), key, v);
      FindIsMember(args, key, v);
    }
    if Find(args, key).Some? {
      assert Find(args, key) == Some(Find(args, key).value);
    }
    if Find(Sort(args), key).Some? {
      assert Find(Sort(args), key) == Some(Find(Sort(args), key).value);
    }
  }

  lemma FindNamed(args: seq<Arg>, name: string, key: string)
    ensures Find(Named(args, name), key) == if key == name then Find(args, name) else None
  {
  }

  lemma FindTruthful(name: string, v: Option<Value>, key: string)
    ensures Find(Truthful(name, v), key) == if key == name && v.Some? && Truthy(v.value) then v else None
  {
  }

  lemma SubjectFind(hyper: seq<Arg>, ctx: Context, key: string)
    ensures Find(Truthful("model", ModelOf(hyper, ctx)) + Truthful("data", DataOf(ctx)), key)
            == if key == "model" && ModelOf(hyper, ctx).Some? && Truthy(ModelOf(hyper, ctx).value) then ModelOf(hyper, ctx)
               else if key == "data" && DataOf(ctx).Some? && Truthy(DataOf(ctx).value) then DataOf(ctx)
               else None
  {
    FindAppend(Truthful("model", ModelOf(hyper, ctx)), Truthful("data", DataOf(ctx)), key);
    FindTruthful("model", ModelOf(hyper, ctx), key);
    FindTruthful("data", DataOf(ctx), key);
  }

  /** Printing three arguments first and the rest sorted leaves every value findable. */
  lemma RestFind(rest: seq<Arg>, before: seq<Arg>, key: string)
    requires Distinct(rest)
    ensures Find(before + Named(rest, "epochs") + Named(rest, "imgsz") + Named(rest, "batch")
                 + Sort(Without(rest, {"epochs", "imgsz", "batch"})), key)
            == if Find(rest, key).Some? then Find(rest, key) else Find(before, key)
  {
    var e, i, b := Named(rest, "epochs"), Named(rest, "imgsz"), Named(rest, "batch");
    var last := Without(rest, {"epochs", "imgsz", "batch"});
    WithoutIsDistinct(rest, {"epochs", "imgsz", "batch"});
    FindAppend(before + e + i + b, Sort(last), key);
    FindAppend(before + e + i, b, key);
    FindAppend(before + e, i, key);
    FindAppend(before, e, key);
    FindSort(last, key);
    FindWithout(rest, {"epochs", "imgsz", "batch"}, key);
    FindNamed(rest, "epochs", key);
    FindNamed(rest, "imgsz", key);
    FindNamed(rest, "batch", key);
  }

  /** The printed arguments give each key what it is expected to have. */
  lemma ArgumentsFind(hyper: seq<Arg>, ctx: Context, key: string)
    requires Distinct(hyper)
    ensures Find(Arguments(hyper, ctx), key) == Expected(hyper, ctx, key)
  {
    var rest := Without(hyper, WIZARD_ONLY_KEYS + {"model"});
    WithoutIsDistinct(hyper, WIZARD_ONLY_KEYS + {"model"});
    RestFind(rest, Truthful("model", ModelOf(hyper, ctx)) + Truthful("data", DataOf(ctx)), key);
    SubjectFind(hyper, ctx, key);
    FindWithout(hyper, WIZARD_ONLY_KEYS + {"model"}, key);
  }

  /**
   The command printed for stored arguments reads back without stray tokens as exactly
   those arguments: without the keys only the wizard uses, with the model and the data set.
   */
  lemma CommandReadsBack(hyper: seq<Arg>, ctx: Context)
    requires Distinct(hyper)
    requires forall i :: 0 <= i < |Arguments(hyper, ctx)| ==> Printable(Arguments(hyper, ctx)[i])
    ensures var tokens := Tokens(CommandText(hyper, ctx));
            && StrayOf(tokens) == []
            && forall k: string ::
                 && (k in ArgsOf(tokens) <==> Expected(hyper, ctx, k).Some?)
                 && (k in ArgsOf(tokens) ==> Expected(hyper, ctx, k) == Some(ArgsOf(tokens)[k]))
  {
    var args := Arguments(hyper, ctx);
    ArgumentsReadBack(args, CommandText(hyper, ctx));
    forall k: string
      ensures Find(args, k) == Expected(hyper, ctx, k)
    {
      ArgumentsFind(hyper, ctx, k);
    }
  }

  lemma ArgumentsReadBack(args: seq<Arg>, cli: string)
    requires forall i :: 0 <= i < |args| ==> Printable(args[i])
    requires cli == "yolo train" + Lines(ArgTexts(args))
    ensures StrayOf(Tokens(cli)) == [] && Agree(ArgsOf(Tokens(cli)), args)
  {
    var texts := ArgTexts(args);
    forall i | 0 <= i < |texts|
      ensures Word(texts[i])
    {
      ArgTextReads(args[i]);
    }
    TokensOfCommand(cli, texts);
    assert ["yolo"] + (["train"] + texts) == ["yolo", "train"] + texts;
    HeadAssignsNothing();
    assert args[..|args|] == args && texts[..|texts|] == texts;
    ArgsOfTexts(args, |args|, Tokens(cli), ["yolo", "train"]);
  }

  lemma FindIgnoresOrder(a: seq<Arg>, b: seq<Arg>, key: string)
    requires Distinct(a) && Distinct(b) && forall x :: x in a <==> x in b
    ensures Find(a, key) == Find(b, key)
  {
    if Find(a, key).Some? {
      FindIsMember(a, key, Find(a, key).value);
      FindIsMember(b, key, Find(a, key).value);
    }
    if Find(b, key).Some? {
      FindIsMember(a, key, Find(b, key).value);
      FindIsMember(b, key, Find(b, key).value);
    }
  }

  /** The text does not depend on the order the arguments were stored in. */
  lemma InsertionOrderDoesNotShow(a: seq<Arg>, b: seq<Arg>, ctx: Context)
    requires Distinct(a) && Distinct(b) && forall x :: x in a <==> x in b
    ensures CommandText(a, ctx) == CommandText(b, ctx)
  {
    var k, l := WIZARD_ONLY_KEYS + {"model"}, {"epochs", "imgsz", "batch"};
    var ra, rb := Without(a, k), Without(b, k);
    WithoutIsDistinct(a, k);
    WithoutIsDistinct(b, k);
    WithoutIsDistinct(ra, l);
    WithoutIsDistinct(rb, l);
    FindIgnoresOrder(a, b, "model");
    FindIgnoresOrder(ra, rb, "epochs");
    FindIgnoresOrder(ra, rb, "imgsz");
    FindIgnoresOrder(ra, rb, "batch");
    SortKeeps(Without(ra, l));
    SortKeeps(Without(rb, l));
    AscendingUnique(Sort(Without(ra, l)), Sort(Without(rb, l)));
  }

  // ----- What a command says, token by token ---------------------------------------------

  /** A token that gives a key this text. */
  predicate Assigns(token: string, key: string, text: string) {
    key != "" && '=' !in key && token == key + ("=" + text)
  }

  lemma AssignmentIs(token: string, key: string, text: string)
    requires Assigns(token, key, text)
    ensures IsAssignment(token) && ReadArg(token) == Keyed(key, ReadValue(key, text))
  {
    CutAt(key, '=', text);
  }

  lemma AssignmentsHaveParts(token: string) returns (key: string, text: string)
    requires IsAssignment(token)
    ensures Assigns(token, key, text) && ReadArg(token).key == key
  {
    var i := IndexOf(token, '=');
    key, text := token[..i], token[i + 1..];
    assert token == token[..i] + ([token[i]] + token[i + 1..]);
  }

  lemma OtherTokenKeeps(before: seq<string>, token: string, key: string)
    requires key in ArgsOf(before) && forall other :: !Assigns(token, key, other)
    ensures key in ArgsOf(before + [token]) && ArgsOf(before + [token])[key] == ArgsOf(before)[key]
  {
    LastToken(before, token);
    if IsAssignment(token) {
      var other, value := AssignmentsHaveParts(token);
      assert other != key;
    }
  }

  lemma LastTokenWins(before: seq<string>, token: string, key: string, text: string)
    requires Assigns(token, key, text)
    ensures key in ArgsOf(before + [token]) && ArgsOf(before + [token])[key] == ReadValue(key, text)
  {
    LastToken(before, token);
    AssignmentIs(token, key, text);
  }

  /** The last token that assigns a key decides. */
  lemma {:induction false} LastAssignmentWins(tokens: seq<string>, i: nat, key: string, text: string)
    requires i < |tokens| && Assigns(tokens[i], key, text)
    requires forall k, other :: i < k < |tokens| ==> !Assigns(tokens[k], key, other)
    ensures key in ArgsOf(tokens) && ArgsOf(tokens)[key] == ReadValue(key, text)
    decreases |tokens|
  {
    var n := |tokens| - 1;
    assert tokens == tokens[..n] + [tokens[n]];
    if i == n {
      LastTokenWins(tokens[..n], tokens[n], key, text);
    } else {
      LastAssignmentWins(tokens[..n], i, key, text);
      OtherTokenKeeps(tokens[..n], tokens[n], key);
    }
  }

  /** Only assigned keys are arguments. */
  lemma {:induction false} ArgumentsAreAssigned(tokens: seq<string>, key: string)
    requires key in ArgsOf(tokens)
    ensures exists i, text :: 0 <= i < |tokens| && Assigns(tokens[i], key, text)
  {
    var n := |tokens| - 1;
    if IsAssignment(tokens[n]) && ReadArg(tokens[n]).key == key {
      var other, text := AssignmentsHaveParts(tokens[n]);
      assert Assigns(tokens[n], key, text);
    } else {
      ArgumentsAreAssigned(tokens[..n], key);
      var i, text :| 0 <= i < n && Assigns(tokens[..n][i], key, text);
      assert Assigns(tokens[i], key, text);
    }
  }

  /** Stray tokens are picked one by one, in their order. */
  lemma {:induction false} StraysAppend(tokens: seq<string>, more: seq<string>)
    ensures StrayOf(tokens + more) == StrayOf(tokens) + StrayOf(more)
    decreases |more|
  {
    if more == [] {
      assert tokens + more == tokens;
    } else {
      var n := |more| - 1;
      StraysAppend(tokens, more[..n]);
      assert tokens + more == (tokens + more[..n]) + [more[n]];
      LastToken(tokens + more[..n], more[n]);
      assert more == more[..n] + [more[n]];
      LastToken(more[..n], more[n]);
    }
  }

  lemma SubcommandsAre(t: string)
    ensures IsSubcommand(t) <==> t in {"yolo", "train", "export", "detect", "obb"}
  {
  }

  lemma StrayOfOne(t: string)
    ensures StrayOf([t]) == if IsSubcommand(t) || IsAssignment(t) then [] else [t]
  {
    LastToken([], t);
    assert [] + [t] == [t];
  }

  /** A token is stray exactly if it is no subcommand and has no `=` or nothing before it. */
  lemma StraysExactly(t: string)
    ensures StrayOf([t]) == if t in {"yolo", "train", "export", "detect", "obb"} || ('=' in t && t[0] != '=') then [] else [t]
  {
    StrayOfOne(t);
    SubcommandsAre(t);
    assert '=' in t ==> (IndexOf(t, '=') > 0 <==> t[0] != '=');
  }

  // ----- What is printed, and where --------------------------------------------------------

  function Place(key: string): nat {
    match key
    case "model" => 0
    case "data" => 1
    case "epochs" => 2
    case "imgsz" => 3
    case "batch" => 4
    case _ => 5
  }

  /** Model, data, epochs, image size and batch in this order, those that are there. */
  ghost predicate InPlace(args: seq<Arg>) {
    && (forall i :: 0 <= i < |args| ==> Place(args[i].key) < 5)
    && forall i, k :: 0 <= i < k < |args| ==> Place(args[i].key) < Place(args[k].key)
  }

  lemma InPlaceAppend(a: seq<Arg>, b: seq<Arg>, key: string, n: nat)
    requires InPlace(a) && (forall i :: 0 <= i < |a| ==> Place(a[i].key) < n) && Place(key) == n < 5
    requires |b| <= 1 && forall i :: 0 <= i < |b| ==> b[i].key == key
    ensures InPlace(a + b) && forall i :: 0 <= i < |a + b| ==> Place((a + b)[i].key) < n + 1
  {
  }

  lemma NamedIs(args: seq<Arg>, key: string)
    ensures |Named(args, key)| <= 1 && forall i :: 0 <= i < |Named(args, key)| ==> Named(args, key)[i].key == key
  {
  }

  lemma SortedWithout(hyper: seq<Arg>, k: set<string>, l: set<string>, all: set<string>, last: seq<Arg>)
    requires Distinct(hyper) && all == k + l && last == Sort(Without(Without(hyper, k), l))
    ensures Ascending(last) && forall a :: a in last <==> a in hyper && a.key !in all
  {
    WithoutIsDistinct(hyper, k);
    WithoutIsDistinct(Without(hyper, k), l);
    SortKeeps(Without(Without(hyper, k), l));
  }

  lemma PlacedKeys()
    ensures {"model", "epochs", "imgsz", "batch", "yolo_version", "yolo_size"} == WIZARD_ONLY_KEYS + {"model"} + {"epochs", "imgsz", "batch"}
  {
  }

  lemma TruthfulIs(key: string, v: Option<Value>)
    ensures |Truthful(key, v)| <= 1 && forall i :: 0 <= i < |Truthful(key, v)| ==> Truthful(key, v)[i].key == key
  {
  }

  lemma TwoInPlace(a: seq<Arg>, b: seq<Arg>, first: string, second: string)
    requires Place(first) == 0 && Place(second) == 1
    requires |a| <= 1 && forall i :: 0 <= i < |a| ==> a[i].key == first
    requires |b| <= 1 && forall i :: 0 <= i < |b| ==> b[i].key == second
    ensures InPlace(a + b) && forall i :: 0 <= i < |a + b| ==> Place((a + b)[i].key) < 2
  {
  }

  lemma SubjectInPlace(hyper: seq<Arg>, ctx: Context)
    ensures var subject := Truthful("model", ModelOf(hyper, ctx)) + Truthful("data", DataOf(ctx));
            InPlace(subject) && forall i :: 0 <= i < |subject| ==> Place(subject[i].key) < 2
  {
    TruthfulIs("model", ModelOf(hyper, ctx));
    TruthfulIs("data", DataOf(ctx));
    TwoInPlace(Truthful("model", ModelOf(hyper, ctx)), Truthful("data", DataOf(ctx)), "model", "data");
  }

  lemma Cut(args: seq<Arg>, fixed: seq<Arg>, last: seq<Arg>)
    requires args == fixed + last
    ensures args[..|fixed|] == fixed && args[|fixed|..] == last
  {
  }

  /** First the arguments with a fixed place, then the others by name; the wizard's keys nowhere. */
  lemma CommandIsOrdered(hyper: seq<Arg>, ctx: Context) returns (n: nat)
    requires Distinct(hyper)
    ensures n <= |Arguments(hyper, ctx)|
    ensures InPlace(Arguments(hyper, ctx)[..n]) && Ascending(Arguments(hyper, ctx)[n..])
    ensures forall a :: a in Arguments(hyper, ctx)[n..] <==>
              a in hyper && a.key !in {"model", "epochs", "imgsz", "batch", "yolo_version", "yolo_size"}
  {
    var rest := Without(hyper, WIZARD_ONLY_KEYS + {"model"});
    var subject := Truthful("model", ModelOf(hyper, ctx)) + Truthful("data", DataOf(ctx));
    var last := Sort(Without(rest, {"epochs", "imgsz", "batch"}));
    var fixed := subject + Named(rest, "epochs") + Named(rest, "imgsz") + Named(rest, "batch");
    SubjectInPlace(hyper, ctx);
    FixedInPlace(subject, rest);
    PlacedKeys();
    SortedWithout(hyper, WIZARD_ONLY_KEYS + {"model"}, {"epochs", "imgsz", "batch"},
                  {"model", "epochs", "imgsz", "batch", "yolo_version", "yolo_size"}, last);
    n := |fixed|;
    Cut(Arguments(hyper, ctx), fixed, last);
  }

  lemma FixedInPlace(subject: seq<Arg>, rest: seq<Arg>)
    requires InPlace(subject) && forall i :: 0 <= i < |subject| ==> Place(subject[i].key) < 2
    ensures InPlace(subject + Named(rest, "epochs") + Named(rest, "imgsz") + Named(rest, "batch"))
  {
    NamedIs(rest, "epochs");
    NamedIs(rest, "imgsz");
    NamedIs(rest, "batch");
    InPlaceAppend(subject, Named(rest, "epochs"), "epochs", 2);
    InPlaceAppend(subject + Named(rest, "epochs"), Named(rest, "imgsz"), "imgsz", 3);
    InPlaceAppend(subject + Named(rest, "epochs") + Named(rest, "imgsz"), Named(rest, "batch"), "batch", 4);
  }

  /** The model of the platform, else the stored one, is left out only if it is null, false, zero or empty; so is the data set. */
  lemma OmittedExactly(v: Value)
    ensures Truthful("model", Option.Some(v)) == [] <==> v == Null || v == Bool(false) || v == Number(Int(0)) || v == Str("")
    ensures Truthful("model", Option.None) == []
  {
  }

  /** A platform model comes before a stored one, a stored data set before the platform's; empty names print nothing. */
  lemma ModelAndDataAre(hyper: seq<Arg>, ctx: Context)
    ensures ctx.model.Some? ==>
              Expected(hyper, ctx, "model") == if ctx.model.value == "" then Option.None else Option.Some(Str(ctx.model.value))
    ensures ctx.model.None? && Find(hyper, "model").Some? ==>
              Expected(hyper, ctx, "model")
              == if Find(hyper, "model").value in [Null, Bool(false), Number(Int(0)), Str("")] then Option.None else Find(hyper, "model")
    ensures ctx.model.None? && Find(hyper, "model").None? ==> Expected(hyper, ctx, "model").None?
    ensures Find(hyper, "data").Some? ==> Expected(hyper, ctx, "data") == Find(hyper, "data")
    ensures Find(hyper, "data").None? ==>
              Expected(hyper, ctx, "data")
              == if ctx.data.Some? && ctx.data.value != "" then Option.Some(Str(ctx.data.value)) else Option.None
  {
  }
}
