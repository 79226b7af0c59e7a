/** Building the Tesseract arguments from the JSON engine arguments, and exporting them. */
module TesseractArgs {
  import opened OcrTypes

  datatype EngineArgs = EngineArgs(configVars: map<string, string>, pageSegMode: string, lang: string)

  const NO_ARGS := EngineArgs(map[], "", "")

  /** `Refused` is the error return, `Panicked` a failed type assertion. */
  datatype Built = Made(args: EngineArgs) | Refused | Panicked

  /** A missing key and a JSON null read the same. */
  function Entry(e: map<string, Json>, key: string): Json {
    if key in e then e[key] else Null
  }

  predicate AllStrings(m: map<string, Json>) {
    forall k :: k in m ==> m[k].Str?
  }

  /** The string-valued configuration map asked for. */
  function ConfigOf(j: Json): map<string, string>
    requires j.Null? || (j.Obj? && AllStrings(j.m))
  {
    if j.Null? then map[] else map k | k in j.m :: j.m[k].s
  }

  function TextOf(j: Json): string {
    if j.Str? then j.s else ""
  }

  predicate NullOrText(j: Json) { j.Null? || j.Str? }

  /** What the builder makes of arguments it accepts. */
  predicate Builds(e: map<string, Json>, t: EngineArgs) {
    var c, p, l := Entry(e, "config_vars"), Entry(e, "psm"), Entry(e, "lang");
    && (c.Null? || (c.Obj? && AllStrings(c.m))) && NullOrText(p) && NullOrText(l)
    && t == EngineArgs(ConfigOf(c), TextOf(p), TextOf(l))
  }

  /** The map is ranged over in any order; the first value that is not a string refuses. */
  method NewTesseractEngineArgs(engineArgs: Option<map<string, Json>>) returns (r: Built)
    ensures engineArgs.None? ==> r == Made(NO_ARGS)
    ensures engineArgs.Some? ==>
              var c, p := Entry(engineArgs.value, "config_vars"), Entry(engineArgs.value, "psm");
              var l := Entry(engineArgs.value, "lang");
              && (r.Panicked? <==> !c.Null? && !c.Obj?)
              && (r.Made? <==> (c.Null? || (c.Obj? && AllStrings(c.m))) && NullOrText(p) && NullOrText(l))
              && (r.Made? ==> Builds(engineArgs.value, r.args))
  {
    if engineArgs.None? {
      return Made(NO_ARGS);
    }
    var args := NO_ARGS;
    var orig := Entry(engineArgs.value, "config_vars");
    if !orig.Null? {
      if !orig.Obj? {
        return Panicked;
      }
      var configVarsMap: map<string, string> := map[];
      var todo := orig.m.Keys;
      while todo != {}
        invariant todo <= orig.m.Keys
        invariant configVarsMap.Keys == orig.m.Keys - todo
        invariant forall k :: k in configVarsMap ==> orig.m[k] == Str(configVarsMap[k])
        decreases todo
      {
        var k :| k in todo;
        if !orig.m[k].Str? {
          return Refused;
        }
        configVarsMap := configVarsMap[k := orig.m[k].s];
        todo := todo - {k};
      }
      assert configVarsMap == ConfigOf(orig);
      args := args.(configVars := configVarsMap);
    }
    var pageSegMode := Entry(engineArgs.value, "psm");
    if !pageSegMode.Null? {
      if !pageSegMode.Str? {
        return Refused;
      }
      args := args.(pageSegMode := pageSegMode.s);
    }
    var lang := Entry(engineArgs.value, "lang");
    if !lang.Null? {
      if !lang.Str? {
        return Refused;
      }
      args := args.(lang := lang.s);
    }
    r := Made(args);
  }

  // ----- export -----

  /** An order in which a map may be ranged over. */
  ghost predicate Enumerates(order: seq<string>, m: map<string, string>) {
    && (forall k :: k in order <==> k in m)
    && (forall i, j :: 0 <= i < j < |order| ==> order[i] != order[j])
  }

  function ConfigArgs(m: map<string, string>, order: seq<string>): seq<string>
    requires forall k :: k in order ==> k in m
  {
    if order == [] then []
    else
      var init, k := order[..|order| - 1], order[|order| - 1];
      ConfigArgs(m, init) + ["-c", k + "=" + m[k]]
  }

  function Exported(t: EngineArgs, order: seq<string>): seq<string>
    requires forall k :: k in order ==> k in t.configVars
  {
    ConfigArgs(t.configVars, order)
    + (if t.pageSegMode != "" then ["--psm", t.pageSegMode] else [])
    + (if t.lang != "" then ["-l", t.lang] else [])
  }

  lemma ConfigArgsSnoc(m: map<string, string>, order: seq<string>, k: string)
    requires k in m && forall x :: x in order ==> x in m
    ensures ConfigArgs(m, order + [k]) == ConfigArgs(m, order) + ["-c"] + [k + "=" + m[k]]
  {
    assert (order + [k])[..|order|] == order;
  }

  method Export(t: EngineArgs) returns (result: seq<string>)
    ensures exists order :: Enumerates(order, t.configVars) && result == Exported(t, order)
  {
    result := [];
    ghost var order: seq<string> := [];
    var todo := t.configVars.Keys;
    while todo != {}
      invariant todo <= t.configVars.Keys
      invariant forall k :: k in order <==> k in t.configVars && k !in todo
      invariant forall i, j :: 0 <= i < j < |order| ==> order[i] != order[j]
      invariant result == ConfigArgs(t.configVars, order)
      decreases todo
    {
      var k :| k in todo;
      result := result + ["-c"];
      result := result + [k + "=" + t.configVars[k]];
      ConfigArgsSnoc(t.configVars, order, k);
      order := order + [k];
      todo := todo - {k};
    }
    assert Enumerates(order, t.configVars);
    assert result + [] == result;
    if t.pageSegMode != "" {
      result := result + ["--psm", t.pageSegMode];
    }
    assert result + [] == result;
    if t.lang != "" {
      result := result + ["-l", t.lang];
    }
    assert result == Exported(t, order);
  }

  // ----- reading the arguments back -----

  /** Key and value around the first '='. */
  function KeyValue(s: string): (r: (string, string))
    ensures '=' !in r.0
  {
    if s == "" then ("", "")
    else if s[0] == '=' then ("", s[1..])
    else
      var (k, v) := KeyValue(s[1..]);
      ([s[0]] + k, v)
  }

  /** Flag/value pairs as the command line means them; a later pair overrides an earlier one. */
  function ReadBack(args: seq<string>): EngineArgs {
    if |args| < 2 then NO_ARGS
    else
      var n := |args|;
      var t, flag, value := ReadBack(args[..n - 2]), args[n - 2], args[n - 1];
      if flag == "-c" then t.(configVars := t.configVars[KeyValue(value).0 := KeyValue(value).1])
      else if flag == "--psm" then t.(pageSegMode := value)
      else if flag == "-l" then t.(lang := value)
      else t
  }

  lemma {:induction false} KeyValueSplits(k: string, v: string)
    requires '=' !in k
    ensures KeyValue(k + "=" + v) == (k, v)
  {
    if k == "" {
      assert k + "=" + v == "=" + v;
    } else {
      assert (k + "=" + v)[1..] == k[1..] + "=" + v;
      KeyValueSplits(k[1..], v);
      assert k == [k[0]] + k[1..];
    }
  }

  lemma ReadBackPair(args: seq<string>, flag: string, value: string)
    ensures ReadBack(args + [flag, value]) ==
            var t := ReadBack(args);
            if flag == "-c" then t.(configVars := t.configVars[KeyValue(value).0 := KeyValue(value).1])
            else if flag == "--psm" then t.(pageSegMode := value)
            else if flag == "-l" then t.(lang := value)
            else t
  {
    assert (args + [flag, value])[..|args|] == args;
  }

  lemma {:induction false} ReadsConfig(m: map<string, string>, order: seq<string>)
    requires forall k :: k in order ==> k in m && '=' !in k
    ensures ReadBack(ConfigArgs(m, order)) == EngineArgs(map k | k in order :: m[k], "", "")
  {
    if order != [] {
      var init, k := order[..|order| - 1], order[|order| - 1];
      ReadsConfig(m, init);
      ReadBackPair(ConfigArgs(m, init), "-c", k + "=" + m[k]);
      KeyValueSplits(k, m[k]);
      assert order == init + [k];
      assert (map x | x in order :: m[x]) == (map x | x in init :: m[x])[k := m[k]];
    }
  }

  lemma {:induction false} KeysReadHaveNoEquals(args: seq<string>)
    ensures forall k :: k in ReadBack(args).configVars ==> '=' !in k
  {
    if |args| >= 2 {
      KeysReadHaveNoEquals(args[..|args| - 2]);
    }
  }

  lemma ReadsTail(t: EngineArgs, order: seq<string>)
    requires forall k :: k in order ==> k in t.configVars
    ensures ReadBack(Exported(t, order)) ==
            var head := ReadBack(ConfigArgs(t.configVars, order));
            EngineArgs(head.configVars,
                       if t.pageSegMode != "" then t.pageSegMode else head.pageSegMode,
                       if t.lang != "" then t.lang else head.lang)
  {
    var c := ConfigArgs(t.configVars, order);
    var p := c + if t.pageSegMode != "" then ["--psm", t.pageSegMode] else [];
    assert c + [] == c && p + [] == p;
    ReadBackPair(c, "--psm", t.pageSegMode);
    ReadBackPair(p, "-l", t.lang);
  }

  /** Whatever the order of iteration, reading the exported arguments back recovers the
      configuration map, the page segmentation mode and the language if and only if no
      configuration key contains '='. */
  lemma RoundTripIffKeysPlain(t: EngineArgs, order: seq<string>)
    requires Enumerates(order, t.configVars)
    ensures ReadBack(Exported(t, order)) == t <==> forall k :: k in t.configVars ==> '=' !in k
  {
    if forall k :: k in t.configVars ==> '=' !in k {
      ReadsConfig(t.configVars, order);
      ReadsTail(t, order);
      assert (map k | k in order :: t.configVars[k]) == t.configVars;
    } else {
      KeysReadHaveNoEquals(Exported(t, order));
    }
  }

  // ----- from the JSON arguments to the command line and back -----

  /** The arguments read back are what the JSON arguments ask for, key by key. */
  ghost predicate Recovers(back: EngineArgs, e: map<string, Json>) {
    var c := Entry(e, "config_vars");
    && (forall k :: k in back.configVars <==> c.Obj? && k in c.m)
    && (forall k :: k in back.configVars && c.Obj? && k in c.m ==> c.m[k] == Str(back.configVars[k]))
    && Asks(Entry(e, "psm"), back.pageSegMode)
    && Asks(Entry(e, "lang"), back.lang)
  }

  predicate Asks(j: Json, text: string) { if j.Null? then text == "" else j == Str(text) }

  /** The whole round trip: whatever JSON arguments the builder accepts and in whatever order the
      configuration map is ranged over, the command line read back recovers the JSON arguments if
      and only if no configuration key contains '='. */
  lemma JsonRoundTripIffKeysPlain(e: map<string, Json>, t: EngineArgs, order: seq<string>)
    requires Builds(e, t) && Enumerates(order, t.configVars)
    ensures Recovers(ReadBack(Exported(t, order)), e) <==>
            var c := Entry(e, "config_vars"); c.Obj? ==> forall k :: k in c.m ==> '=' !in k
  {
    RoundTripIffKeysPlain(t, order);
    RecoversIffSame(ReadBack(Exported(t, order)), t, e);
    assert forall k :: k in t.configVars <==> Entry(e, "config_vars").Obj? && k in Entry(e, "config_vars").m;
  }

  lemma RecoversIffSame(back: EngineArgs, t: EngineArgs, e: map<string, Json>)
    requires Builds(e, t)
    ensures Recovers(back, e) <==> back == t
  {
    BuildsRecovers(t, e);
    if Recovers(back, e) {
      SameRecovered(back, t, e);
    }
  }

  lemma BuildsRecovers(t: EngineArgs, e: map<string, Json>)
    requires Builds(e, t)
    ensures Recovers(t, e)
  {
  }

  /** JSON arguments determine what recovers them. */
  lemma SameRecovered(a: EngineArgs, b: EngineArgs, e: map<string, Json>)
    requires Recovers(a, e) && Recovers(b, e)
    ensures a == b
  {
    assert a.configVars.Keys == b.configVars.Keys;
    assert forall k :: k in a.configVars ==> Str(a.configVars[k]) == Str(b.configVars[k]);
    assert a.configVars == b.configVars;
  }
}
