/** The `.env` reader `load_config` (main.py:23-43) and the configuration it
    produces: the username-to-key table and the upstream server's address. */
module ConfigLoader {
  import opened Wrappers
  import opened Text

  /** One `username_<name>=<key>` entry of the key table. */
  datatype Binding = Binding(name: string, key: string)

  /** What `load_config` returns. `apiKeys` is the Python dict as its items in
      insertion order; a name occurs at most once in it. */
  datatype Config = Config(apiKeys: seq<Binding>, serverIp: string, serverPort: string)

  /** The values before any line is read (main.py:24-26). */
  const Defaults := Config([], "", "")

  const UserPrefix := "username_"

  // ---------------------------------------------------------------------
  // The key table as an insertion-ordered dict

  function Names(bs: seq<Binding>): (r: seq<string>)
    ensures |r| == |bs| && forall i :: 0 <= i < |bs| ==> r[i] == bs[i].name
  {
    if bs == [] then [] else [bs[0].name] + Names(bs[1..])
  }

  /** `dict.values()`, in order. */
  function Keys(bs: seq<Binding>): (r: seq<string>)
    ensures |r| == |bs| && forall i :: 0 <= i < |bs| ==> r[i] == bs[i].key
  {
    if bs == [] then [] else [bs[0].key] + Keys(bs[1..])
  }

  /** `d.get(name)`. */
  function Lookup(bs: seq<Binding>, name: string): Option<string>
  {
    if bs == [] then None
    else if bs[0].name == name then Some(bs[0].key)
    else Lookup(bs[1..], name)
  }

  predicate Distinct(xs: seq<string>)
  {
    forall i, j :: 0 <= i < j < |xs| ==> xs[i] != xs[j]
  }

  /** In a table whose names are distinct, every entry is what `get` finds
      for its name. */
  lemma {:induction false} LookupAt(bs: seq<Binding>, i: nat)
    requires Distinct(Names(bs)) && i < |bs|
    ensures Lookup(bs, bs[i].name) == Some(bs[i].key)
  {
    if i > 0 {
      assert Names(bs)[0] != Names(bs)[i];
      assert Names(bs[1..]) == Names(bs)[1..];
      LookupAt(bs[1..], i - 1);
    }
  }

  /** `d[name] = key`: a name already present keeps its position and takes the
      new key; a new name goes to the end; no other name changes. */
  function Bind(bs: seq<Binding>, name: string, key: string): (r: seq<Binding>)
    ensures Names(r) == if name in Names(bs) then Names(bs) else Names(bs) + [name]
    ensures Lookup(r, name) == Some(key)
    ensures forall n :: n != name ==> Lookup(r, n) == Lookup(bs, n)
  {
    if bs == [] then [Binding(name, key)]
    else if bs[0].name == name then [Binding(name, key)] + bs[1..]
    else [bs[0]] + Bind(bs[1..], name, key)
  }

  lemma BindKeepsDistinct(bs: seq<Binding>, name: string, key: string)
    requires Distinct(Names(bs))
    ensures Distinct(Names(Bind(bs, name, key)))
  {
  }

  // ---------------------------------------------------------------------
  // One line of the file

  /** How one line of the file is handled: `line.strip()` is empty, or it does
      not unpack into `key, value` on `split('=')` (which raises), or it does. */
  datatype LineKind = Blank | Malformed | Entry(key: string, value: string)

  function Classify(line: string): LineKind
  {
    var t := Strip(line);
    if t == "" then Blank
    else
      var i := IndexOf(t, '=');
      if i == |t| || '=' in t[i + 1..] then Malformed
      else Entry(t[..i], t[i + 1..])
  }

  /** A line is blank iff it is all whitespace; it unpacks iff its stripped
      text holds exactly one `=`, and then it is `key=value` with no `=` in
      either part. */
  lemma ClassifySpec(line: string)
    ensures Classify(line).Blank? <==> forall i :: 0 <= i < |line| ==> IsSpace(line[i])
    ensures Classify(line).Entry? <==> Count(Strip(line), '=') == 1
    ensures Classify(line).Entry? ==>
              Strip(line) == Classify(line).key + "=" + Classify(line).value
              && '=' !in Classify(line).key && '=' !in Classify(line).value
  {
    StripBlank(line);
    var t := Strip(line);
    if t != "" {
      var i := IndexOf(t, '=');
      if i == |t| {
        assert t[..i] == t;
        CountZero(t, '=');
      } else {
        SplitCount(t, i);
      }
    }
  }

  lemma SplitCount(t: string, i: nat)
    requires i < |t| && t[i] == '=' && '=' !in t[..i]
    ensures t == t[..i] + "=" + t[i + 1..]
    ensures Count(t, '=') == 1 <==> '=' !in t[i + 1..]
  {
    assert t == t[..i] + "=" + t[i + 1..];
    CountConcat(t[..i] + "=", t[i + 1..], '=');
    CountConcat(t[..i], "=", '=');
    CountZero(t[..i], '=');
    CountZero(t[i + 1..], '=');
  }

  /** `key.split('username_')[1]` for a key that starts with `username_`. */
  function UserName(key: string): string
    requires StartsWith(key, UserPrefix)
  {
    Before(key[|UserPrefix|..], UserPrefix)
  }

  /** The name is the text after the prefix, up to the next `username_` or
      the end of the key, and holds no `username_` of its own. */
  lemma UserNameSpec(key: string)
    requires StartsWith(key, UserPrefix)
    ensures var r := UserName(key);
            |UserPrefix| + |r| <= |key| && key[..|UserPrefix| + |r|] == UserPrefix + r
            && (|UserPrefix| + |r| == |key| || StartsWith(key[|UserPrefix| + |r|..], UserPrefix))
            && forall i :: 0 <= i < |r| ==> !StartsWith(r[i..] + key[|UserPrefix| + |r|..], UserPrefix)
  {
    var rest := key[|UserPrefix|..];
    var r := UserName(key);
    BeforeSpec(rest, UserPrefix);
    assert rest == r + rest[|r|..];
    assert forall i :: 0 <= i < |r| ==> rest[i..] == r[i..] + key[|UserPrefix| + |r|..];
  }

  /** The effect of one `key=value` entry on the configuration (main.py:34-39). */
  function Apply(cfg: Config, key: string, value: string): (r: Config)
    ensures r.apiKeys != cfg.apiKeys ==> StartsWith(key, UserPrefix)
    ensures r.serverIp != cfg.serverIp ==> key == "SERVER_IP" && r.serverIp == value
    ensures r.serverPort != cfg.serverPort ==> key == "SERVER_PORT" && r.serverPort == value
  {
    if StartsWith(key, UserPrefix) then cfg.(apiKeys := Bind(cfg.apiKeys, UserName(key), value))
    else if key == "SERVER_IP" then cfg.(serverIp := value)
    else if key == "SERVER_PORT" then cfg.(serverPort := value)
    else cfg
  }

  // ---------------------------------------------------------------------
  // The whole file

  /** The configuration read so far, and whether an exception has ended the loop. */
  datatype Progress = Progress(config: Config, stopped: bool)

  const Start := Progress(Defaults, false)

  /** The file's lines as `load_config` sees them, one verdict per line. */
  function Kinds(lines: seq<string>): (ks: seq<LineKind>)
    ensures |ks| == |lines|
  {
    if lines == [] then [] else [Classify(lines[0])] + Kinds(lines[1..])
  }

  lemma {:induction false} KindsAt(lines: seq<string>, i: nat)
    requires i < |lines|
    ensures Kinds(lines)[i] == Classify(lines[i])
  {
    if i > 0 {
      KindsAt(lines[1..], i - 1);
    }
  }

  lemma {:induction false} KindsConcat(a: seq<string>, b: seq<string>)
    ensures Kinds(a + b) == Kinds(a) + Kinds(b)
  {
    if a == [] {
      assert a + b == b;
    } else {
      assert (a + b)[0] == a[0];
      assert (a + b)[1..] == a[1..] + b;
      KindsConcat(a[1..], b);
    }
  }

  /** One iteration of the loop. */
  function Step(p: Progress, k: LineKind): Progress
  {
    if p.stopped then p
    else
      match k
      case Blank => p
      case Malformed => p.(stopped := true)
      case Entry(key, value) => p.(config := Apply(p.config, key, value))
  }

  function Run(p: Progress, ks: seq<LineKind>): Progress
    decreases ks
  {
    if ks == [] then p else Run(Step(p, ks[0]), ks[1..])
  }

  /** What `load_config` returns for a file with these lines. */
  function Load(lines: seq<string>): Config
  {
    Run(Start, Kinds(lines)).config
  }

  /** `load_config`: reads the lines in order, updating the three results; the
      first line that does not unpack raises, and the handler returns what was
      gathered. A file that cannot be opened (`None`) gives the defaults. */
  method LoadConfig(file: Option<seq<string>>) returns (apiKeys: seq<Binding>, serverIp: string, serverPort: string)
    ensures file.None? ==> Config(apiKeys, serverIp, serverPort) == Defaults
    ensures file.Some? ==> Config(apiKeys, serverIp, serverPort) == Load(file.value)
  {
    apiKeys, serverIp, serverPort := [], "", "";
    if file.None? {
      return;
    }
    var lines := file.value;
    ghost var ks := Kinds(lines);
    var i := 0;
    while i < |lines|
      invariant 0 <= i <= |lines|
      invariant Load(lines) == Run(Progress(Config(apiKeys, serverIp, serverPort), false), ks[i..]).config
    {
      ghost var before := Progress(Config(apiKeys, serverIp, serverPort), false);
      RunStep(before, ks, i);
      KindsAt(lines, i);
      match Classify(lines[i]) {
        case Blank =>
        case Malformed =>
          RunStopped(before.(stopped := true), ks[i + 1..]);
          break;
        case Entry(key, value) =>
          if StartsWith(key, UserPrefix) {
            apiKeys := Bind(apiKeys, UserName(key), value);
          } else if key == "SERVER_IP" {
            serverIp := value;
          } else if key == "SERVER_PORT" {
            serverPort := value;
          }
      }
      assert Progress(Config(apiKeys, serverIp, serverPort), false) == Step(before, ks[i]);
      i := i + 1;
    }
  }

  // ---------------------------------------------------------------------
  // The fold, one verdict at a time

  lemma {:induction false} RunStopped(p: Progress, ks: seq<LineKind>)
    requires p.stopped
    ensures Run(p, ks) == p
    decreases ks
  {
    if ks != [] {
      RunStopped(p, ks[1..]);
    }
  }

  lemma RunStep(p: Progress, ks: seq<LineKind>, i: nat)
    requires i < |ks|
    ensures Run(p, ks[i..]) == Run(Step(p, ks[i]), ks[i + 1..])
  {
    assert ks[i..][0] == ks[i];
    assert ks[i..][1..] == ks[i + 1..];
  }

  lemma {:induction false} RunConcat(p: Progress, xs: seq<LineKind>, ys: seq<LineKind>)
    ensures Run(p, xs + ys) == Run(Run(p, xs), ys)
    decreases xs
  {
    if xs == [] {
      assert xs + ys == ys;
    } else {
      assert (xs + ys)[0] == xs[0];
      assert (xs + ys)[1..] == xs[1..] + ys;
      RunConcat(Step(p, xs[0]), xs[1..], ys);
    }
  }

  lemma {:induction false} RunNotStopped(p: Progress, ks: seq<LineKind>)
    requires !p.stopped
    requires forall i :: 0 <= i < |ks| ==> !ks[i].Malformed?
    ensures !Run(p, ks).stopped
    decreases ks
  {
    if ks != [] {
      assert forall i :: 0 <= i < |ks| - 1 ==> ks[1..][i] == ks[i + 1];
      RunNotStopped(Step(p, ks[0]), ks[1..]);
    }
  }

  predicate SetsKey(k: LineKind, key: string)
  {
    k.Entry? && k.key == key
  }

  predicate BindsName(k: LineKind, name: string)
  {
    k.Entry? && StartsWith(k.key, UserPrefix) && UserName(k.key) == name
  }

  lemma {:induction false} RunKeepsServerIp(p: Progress, ks: seq<LineKind>)
    requires forall i :: 0 <= i < |ks| ==> !SetsKey(ks[i], "SERVER_IP")
    ensures Run(p, ks).config.serverIp == p.config.serverIp
    decreases ks
  {
    if ks != [] {
      assert Step(p, ks[0]).config.serverIp == p.config.serverIp;
      assert forall i :: 0 <= i < |ks| - 1 ==> ks[1..][i] == ks[i + 1];
      RunKeepsServerIp(Step(p, ks[0]), ks[1..]);
    }
  }

  lemma {:induction false} RunKeepsServerPort(p: Progress, ks: seq<LineKind>)
    requires forall i :: 0 <= i < |ks| ==> !SetsKey(ks[i], "SERVER_PORT")
    ensures Run(p, ks).config.serverPort == p.config.serverPort
    decreases ks
  {
    if ks != [] {
      assert Step(p, ks[0]).config.serverPort == p.config.serverPort;
      assert forall i :: 0 <= i < |ks| - 1 ==> ks[1..][i] == ks[i + 1];
      RunKeepsServerPort(Step(p, ks[0]), ks[1..]);
    }
  }

  lemma {:induction false} RunKeepsName(p: Progress, ks: seq<LineKind>, name: string)
    requires forall i :: 0 <= i < |ks| ==> !BindsName(ks[i], name)
    ensures Lookup(Run(p, ks).config.apiKeys, name) == Lookup(p.config.apiKeys, name)
    decreases ks
  {
    if ks != [] {
      assert Lookup(Step(p, ks[0]).config.apiKeys, name) == Lookup(p.config.apiKeys, name);
      assert forall i :: 0 <= i < |ks| - 1 ==> ks[1..][i] == ks[i + 1];
      RunKeepsName(Step(p, ks[0]), ks[1..], name);
    }
  }

  lemma {:induction false} RunKeepsDistinct(p: Progress, ks: seq<LineKind>)
    requires Distinct(Names(p.config.apiKeys))
    ensures Distinct(Names(Run(p, ks).config.apiKeys))
    decreases ks
  {
    if ks != [] {
      var k := ks[0];
      if !p.stopped && k.Entry? && StartsWith(k.key, UserPrefix) {
        BindKeepsDistinct(p.config.apiKeys, UserName(k.key), k.value);
      }
      RunKeepsDistinct(Step(p, k), ks[1..]);
    }
  }

  // ---------------------------------------------------------------------
  // Properties of Load

  lemma KindsSplit(pre: seq<string>, line: string, post: seq<string>)
    ensures Kinds(pre + [line] + post) == Kinds(pre) + [Classify(line)] + Kinds(post)
    ensures Kinds(pre + post) == Kinds(pre) + Kinds(post)
  {
    KindsConcat(pre + [line], post);
    KindsConcat(pre, [line]);
    KindsConcat(pre, post);
    assert Kinds([line]) == [Classify(line)];
  }

  /** The verdicts of lines none of which is malformed hold no `Malformed`. */
  lemma KindsNoMalformed(lines: seq<string>)
    requires NoMalformed(lines)
    ensures forall i :: 0 <= i < |lines| ==> !Kinds(lines)[i].Malformed?
  {
    forall i | 0 <= i < |lines| ensures !Kinds(lines)[i].Malformed? {
      KindsAt(lines, i);
    }
  }

  /** A line whose verdict leaves every state alone can be dropped from the file. */
  lemma InertLineDropped(pre: seq<string>, line: string, post: seq<string>)
    requires forall p :: Step(p, Classify(line)) == p
    ensures Load(pre + [line] + post) == Load(pre + post)
  {
    KindsSplit(pre, line, post);
    var a, k, b := Kinds(pre), Classify(line), Kinds(post);
    RunConcat(Start, a + [k], b);
    RunConcat(Start, a, [k]);
    RunConcat(Start, a, b);
  }

  /** Lines that are empty after `strip()` are skipped (main.py:31-32). */
  lemma BlankLineSkipped(pre: seq<string>, line: string, post: seq<string>)
    requires forall i :: 0 <= i < |line| ==> IsSpace(line[i])
    ensures Load(pre + [line] + post) == Load(pre + post)
  {
    ClassifySpec(line);
    InertLineDropped(pre, line, post);
  }

  /** An entry whose key is neither `username_...`, `SERVER_IP` nor
      `SERVER_PORT` changes nothing (main.py:34-39 has no other branch). */
  lemma UnknownKeyIgnored(pre: seq<string>, line: string, post: seq<string>)
    requires Classify(line).Entry?
    requires !StartsWith(Classify(line).key, UserPrefix)
    requires Classify(line).key != "SERVER_IP" && Classify(line).key != "SERVER_PORT"
    ensures Load(pre + [line] + post) == Load(pre + post)
  {
    InertLineDropped(pre, line, post);
  }

  /** A line that does not unpack ends the parse: nothing after it counts, and
      the result is what the lines before it gave (main.py:33, 40-43). */
  lemma MalformedLineStops(pre: seq<string>, line: string, post: seq<string>)
    requires Classify(line).Malformed?
    ensures Load(pre + [line] + post) == Load(pre)
  {
    KindsSplit(pre, line, post);
    var a, k, b := Kinds(pre), Classify(line), Kinds(post);
    RunConcat(Start, a + [k], b);
    RunConcat(Start, a, [k]);
    var q := Run(Start, a + [k]);
    assert q.config == Run(Start, a).config && q.stopped;
    RunStopped(q, b);
  }

  predicate NoMalformed(lines: seq<string>)
  {
    forall i :: 0 <= i < |lines| ==> !Classify(lines[i]).Malformed?
  }

  /** `SERVER_IP` and `SERVER_PORT` are `""` unless some line sets them
      (main.py:25-26). */
  lemma ServerDefaults(lines: seq<string>)
    ensures (forall i :: 0 <= i < |lines| ==> !SetsKey(Classify(lines[i]), "SERVER_IP")) ==> Load(lines).serverIp == ""
    ensures (forall i :: 0 <= i < |lines| ==> !SetsKey(Classify(lines[i]), "SERVER_PORT")) ==> Load(lines).serverPort == ""
  {
    var ks := Kinds(lines);
    forall i | 0 <= i < |lines| ensures ks[i] == Classify(lines[i]) {
      KindsAt(lines, i);
    }
    if forall i :: 0 <= i < |lines| ==> !SetsKey(Classify(lines[i]), "SERVER_IP") {
      RunKeepsServerIp(Start, ks);
    }
    if forall i :: 0 <= i < |lines| ==> !SetsKey(Classify(lines[i]), "SERVER_PORT") {
      RunKeepsServerPort(Start, ks);
    }
  }

  /** The prefix of the file before `line` has been read without stopping;
      what comes after starts from the state `line` left. */
  lemma ReadThrough(pre: seq<string>, line: string, post: seq<string>)
    requires NoMalformed(pre)
    ensures var p := Run(Start, Kinds(pre));
            !p.stopped && Load(pre + [line] + post) == Run(Step(p, Classify(line)), Kinds(post)).config
  {
    KindsSplit(pre, line, post);
    var a, k, b := Kinds(pre), Classify(line), Kinds(post);
    KindsNoMalformed(pre);
    RunNotStopped(Start, a);
    RunConcat(Start, a + [k], b);
    RunConcat(Start, a, [k]);
    assert Run(Run(Start, a), [k]) == Step(Run(Start, a), k) by {
      assert [k][1..] == [];
    }
  }

  /** A `SERVER_IP` or `SERVER_PORT` entry read while the loop runs sets
      that field to its value. */
  lemma StepSetsServer(p: Progress, k: LineKind)
    requires !p.stopped
    ensures SetsKey(k, "SERVER_IP") ==> Step(p, k).config.serverIp == k.value
    ensures SetsKey(k, "SERVER_PORT") ==> Step(p, k).config.serverPort == k.value
  {
    assert !StartsWith("SERVER_IP", UserPrefix) by { assert "SERVER_IP"[0] != UserPrefix[0]; }
    assert !StartsWith("SERVER_PORT", UserPrefix) by { assert "SERVER_PORT"[0] != UserPrefix[0]; }
    assert "SERVER_PORT" != "SERVER_IP" by { assert "SERVER_PORT"[7] != "SERVER_IP"[7]; }
  }

  /** The last `SERVER_IP` line read wins: later lines that do not set it,
      malformed or not, leave its value alone (main.py:36-37). */
  lemma ServerIpLastWins(pre: seq<string>, line: string, post: seq<string>)
    requires NoMalformed(pre) && SetsKey(Classify(line), "SERVER_IP")
    requires forall i :: 0 <= i < |post| ==> !SetsKey(Classify(post[i]), "SERVER_IP")
    ensures Load(pre + [line] + post).serverIp == Classify(line).value
  {
    var b := Kinds(post);
    forall i | 0 <= i < |post| ensures b[i] == Classify(post[i]) {
      KindsAt(post, i);
    }
    ReadThrough(pre, line, post);
    var p := Run(Start, Kinds(pre));
    StepSetsServer(p, Classify(line));
    var q := Step(p, Classify(line));
    RunKeepsServerIp(q, b);
  }

  /** The last `SERVER_PORT` line read wins (main.py:38-39). */
  lemma ServerPortLastWins(pre: seq<string>, line: string, post: seq<string>)
    requires NoMalformed(pre) && SetsKey(Classify(line), "SERVER_PORT")
    requires forall i :: 0 <= i < |post| ==> !SetsKey(Classify(post[i]), "SERVER_PORT")
    ensures Load(pre + [line] + post).serverPort == Classify(line).value
  {
    var b := Kinds(post);
    forall i | 0 <= i < |post| ensures b[i] == Classify(post[i]) {
      KindsAt(post, i);
    }
    ReadThrough(pre, line, post);
    var p := Run(Start, Kinds(pre));
    StepSetsServer(p, Classify(line));
    var q := Step(p, Classify(line));
    RunKeepsServerPort(q, b);
  }

  /** A `username_<name>=<key>` line binds `name` to `key`; a later line for
      the same name overwrites it, and lines for other names do not
      (main.py:34-35). */
  lemma UserBindingLastWins(pre: seq<string>, line: string, post: seq<string>)
    requires NoMalformed(pre)
    requires Classify(line).Entry? && StartsWith(Classify(line).key, UserPrefix)
    requires forall i :: 0 <= i < |post| ==> !BindsName(Classify(post[i]), UserName(Classify(line).key))
    ensures Lookup(Load(pre + [line] + post).apiKeys, UserName(Classify(line).key)) == Some(Classify(line).value)
  {
    var name := UserName(Classify(line).key);
    var b := Kinds(post);
    forall i | 0 <= i < |post| ensures b[i] == Classify(post[i]) {
      KindsAt(post, i);
    }
    ReadThrough(pre, line, post);
    var q := Step(Run(Start, Kinds(pre)), Classify(line));
    assert Lookup(q.config.apiKeys, name) == Some(Classify(line).value);
    RunKeepsName(q, b, name);
  }

  /** A name that no line binds is not in the loaded table: `SERVER_IP`,
      `SERVER_PORT`, blank, unknown and malformed lines never add a key, so
      every accepted key comes from a `username_` line. */
  lemma LoadedNameAbsent(lines: seq<string>, name: string)
    requires forall i :: 0 <= i < |lines| ==> !BindsName(Classify(lines[i]), name)
    ensures Lookup(Load(lines).apiKeys, name) == None
  {
    forall i | 0 <= i < |lines| ensures Kinds(lines)[i] == Classify(lines[i]) {
      KindsAt(lines, i);
    }
    RunKeepsName(Start, Kinds(lines), name);
  }

  /** The loaded table is a dict: every name occurs once. */
  lemma LoadedNamesDistinct(lines: seq<string>)
    ensures Distinct(Names(Load(lines).apiKeys))
  {
    RunKeepsDistinct(Start, Kinds(lines));
  }
}
