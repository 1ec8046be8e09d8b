/**
 * The configuration object: the constructor's defaults, the `k = v`
 * property-file parser (`parse_config_file`), the factory that parses files
 * over the defaults one after another (`create`), and the rules of
 * `validate` that need no filesystem.
 */
module Config {

  import opened Wrappers
  import opened Text

  /** An attribute value: `None`, an integer or a text. */
  datatype Value = VNone | VInt(i: int) | VStr(s: string)

  /** The configuration object's attributes (its `__dict__`), by name. */
  type Attributes = map<string, Value>

  /** `Configuration()`: the constructor's default for each of its seventeen attributes. */
  const Defaults: Attributes := map[
    "project" := VNone,
    "email" := VNone,
    "region" := VStr("us-west-1"),
    "ami_id" := VStr("ami-87712ac2"),
    "instance_type" := VStr("t1.micro"),
    "user" := VStr("ubuntu"),
    "instance_availabilityzone" := VStr("us-west-1b"),
    "instance_securitygroup" := VStr("default"),
    "min_instance_count" := VInt(1),
    "max_instance_count" := VInt(1),
    "amazon_keypair_name" := VNone,
    "pem_file" := VNone,
    "pem_path" := VNone,
    "aws_access_key_id" := VNone,
    "aws_secret_key" := VNone,
    "max_wait_tries" := VInt(12),
    "max_wait_duration" := VInt(10)
  ]

  /** The attributes `parse_config_file` turns into integers, in the order it does so. */
  const IntegerAttributes: seq<string> := ["min_instance_count", "max_instance_count", "max_wait_tries", "max_wait_duration"]

  // ---- one line ----

  /** `word.startswith(q) and word.endswith(q)`. */
  predicate QuotedBy(w: string, q: char) {
    |w| >= 1 && w[0] == q && w[|w| - 1] == q
  }

  predicate Quoted(w: string) {
    QuotedBy(w, '"') || QuotedBy(w, '\'')
  }

  /**
   * `_unquote(word)`: one enclosing pair of matching double or single quotes
   * removed (`word[1:-1]`, so that a lone quote becomes empty); any other
   * word comes back as it is.
   */
  function Unquote(w: string): (r: string)
    ensures Quoted(w) ==> |r| == (if |w| >= 2 then |w| - 2 else 0)
    ensures Quoted(w) ==> forall k :: 0 <= k < |r| ==> r[k] == w[k + 1]
    ensures !Quoted(w) ==> r == w
  {
    if Quoted(w) then (if |w| >= 2 then w[1..|w| - 1] else "") else w
  }

  /** Quoting any text, with either kind of quote, and unquoting it gives the text back. */
  lemma UnquoteQuoted(x: string, q: char)
    requires q == '"' || q == '\''
    ensures Unquote([q] + x + [q]) == x
  {
    var w := [q] + x + [q];
    assert QuotedBy(w, q);
    assert w[1..|w| - 1] == x;
  }

  /** `l.startswith("#")`: the line is not stripped first. */
  predicate Comment(l: string) {
    |l| > 0 && l[0] == '#'
  }

  /**
   * What one line gives `_as_dict`: nothing for a comment or a line without
   * `=`; otherwise the key before the first `=` and the value after it, each
   * stripped and then unquoted. A second `=` splits the line into more than
   * two parts, which `dict` rejects with `ValueError`.
   */
  function Entry(l: string): (r: Result<Option<(string, string)>>)
    ensures Comment(l) || '=' !in l ==> r == Success(None)
    ensures !Comment(l) && '=' in l ==>
      var i := IndexOf(l, '=');
      && (r.Failure? <==> '=' in l[i + 1..])
      && (r.Success? ==> r.value == Some((Unquote(Strip(l[..i])), Unquote(Strip(l[i + 1..])))))
  {
    if Comment(l) || '=' !in l then Success(None)
    else
      var parts := Split(l, '=');
      SplitInTwo(l, '=');
      if |parts| != 2 then Failure(ValueError(l))
      else Success(Some((Unquote(Strip(parts[0])), Unquote(Strip(parts[1])))))
  }

  /** The line `k = "v"` (or with single quotes) that sets `k` to `v`. */
  function PropertyLine(k: string, v: string, q: char): string {
    k + " = " + [q] + v + [q]
  }

  /**
   * Writing a property line and reading it back gives the key and value:
   * the key must be free of `=`, surrounding white space and quotes and must
   * not start with `#`; the value may be anything without `=`.
   */
  lemma EntryOfPropertyLine(k: string, v: string, q: char)
    requires q == '"' || q == '\''
    requires '=' !in k && '=' !in v
    requires |k| == 0 || (!IsSpace(k[0]) && !IsSpace(k[|k| - 1]) && k[0] != '#')
    requires !Quoted(k)
    ensures Entry(PropertyLine(k, v, q)) == Success(Some((k, v)))
  {
    var w := [q] + v + [q];
    var l := PropertyLine(k, v, q);
    var i := |k| + 1;
    PropertyLineShape(k, v, q);
    assert Unquote(Strip(k + " ")) == k by {
      StripPadded(k);
    }
    assert Unquote(Strip(" " + w)) == v by {
      StripPadded(w);
      UnquoteQuoted(v, q);
    }
    EntryOfParts(l, i, k, v);
  }

  /** Where the one `=` of a written property line sits, and what lies either side of it. */
  lemma PropertyLineShape(k: string, v: string, q: char)
    requires '=' !in k && '=' !in v && q != '='
    requires |k| == 0 || k[0] != '#'
    ensures var l := PropertyLine(k, v, q); var i := |k| + 1;
      && !Comment(l) && '=' in l && IndexOf(l, '=') == i
      && l[..i] == k + " " && l[i + 1..] == " " + ([q] + v + [q]) && '=' !in l[i + 1..]
  {
    var w := [q] + v + [q];
    var l := (k + " ") + ['='] + (" " + w);
    assert PropertyLine(k, v, q) == l;
    assert !Comment(l);
    assert '=' !in k + " ";
    IndexOfJoin(k + " ", '=', " " + w);
    assert l[|k| + 2..] == " " + w;
  }

  /** A line with one `=`, read through `Entry`'s contract. */
  lemma EntryOfParts(l: string, i: nat, k: string, v: string)
    requires !Comment(l) && '=' in l && IndexOf(l, '=') == i && '=' !in l[i + 1..]
    requires Unquote(Strip(l[..i])) == k && Unquote(Strip(l[i + 1..])) == v
    ensures Entry(l) == Success(Some((k, v)))
  {
  }

  /** A line's key and value. */
  type Pair = (string, string)

  /** Entry `e` sets key `k`. */
  predicate Sets(e: Option<Pair>, k: string) {
    e.Some? && e.value.0 == k
  }

  /** Entry `i` sets key `k`, and no later entry does. */
  predicate LastSets(es: seq<Option<Pair>>, i: int, k: string) {
    && 0 <= i < |es| && Sets(es[i], k)
    && forall j :: i < j < |es| ==> !Sets(es[j], k)
  }

  /** The entries of all lines, failing when any line is malformed. */
  function Entries(lines: seq<string>): (r: Result<seq<Option<Pair>>>)
    ensures r.Failure? <==> exists i :: 0 <= i < |lines| && Entry(lines[i]).Failure?
    ensures r.Success? ==> |r.value| == |lines| && forall i :: 0 <= i < |lines| ==> Entry(lines[i]) == Success(r.value[i])
    decreases |lines|
  {
    if lines == [] then Success([])
    else
      var e :- Entry(lines[0]);
      var rest :- Entries(lines[1..]);
      assert forall i :: 1 <= i < |lines| ==> lines[i] == lines[1..][i - 1];
      Success([e] + rest)
  }

  /**
   * `dict` over a sequence of entries: it holds exactly the keys some entry
   * sets, each with the value of the last entry setting it.
   */
  function DictOf(es: seq<Option<Pair>>): (d: map<string, string>)
    ensures forall k :: k in d <==> exists i :: 0 <= i < |es| && Sets(es[i], k)
    ensures forall k, i :: LastSets(es, i, k) ==> k in d && d[k] == es[i].value.1
    decreases |es|
  {
    if es == [] then map[]
    else
      var d := DictOf(es[1..]);
      var r := if es[0].Some? && es[0].value.0 !in d then d[es[0].value.0 := es[0].value.1] else d;
      DictStep(es, d, r);
      r
  }

  /** The first entry under what the entries after it gave. */
  lemma DictStep(es: seq<Option<Pair>>, d: map<string, string>, r: map<string, string>)
    requires |es| > 0
    requires forall k :: k in d <==> exists i :: 0 <= i < |es[1..]| && Sets(es[1..][i], k)
    requires forall k, i :: LastSets(es[1..], i, k) ==> k in d && d[k] == es[1..][i].value.1
    requires r == if es[0].Some? && es[0].value.0 !in d then d[es[0].value.0 := es[0].value.1] else d
    ensures forall k :: k in r <==> exists i :: 0 <= i < |es| && Sets(es[i], k)
    ensures forall k, i :: LastSets(es, i, k) ==> k in r && r[k] == es[i].value.1
  {
    var tail := es[1..];
    forall k
      ensures k in r <==> exists i :: 0 <= i < |es| && Sets(es[i], k)
    {
      if exists i :: 0 <= i < |es| && Sets(es[i], k) {
        var i :| 0 <= i < |es| && Sets(es[i], k);
        if i > 0 {
          assert Sets(tail[i - 1], k);
        }
      }
      if k in d {
        var i :| 0 <= i < |tail| && Sets(tail[i], k);
        assert Sets(es[i + 1], k);
      }
    }
    forall k, i | LastSets(es, i, k)
      ensures k in r && r[k] == es[i].value.1
    {
      if i > 0 {
        assert LastSets(tail, i - 1, k);
      } else {
        forall j | 0 <= j < |tail|
          ensures !Sets(tail[j], k)
        {
          assert tail[j] == es[j + 1];
        }
      }
    }
  }

  // ---- a whole file ----

  /**
   * `_as_dict(lines)`: `dict` over the entries in line order. It fails when
   * any line is malformed; otherwise it holds exactly the keys some line
   * sets, each with the value the last line setting it gives.
   */
  function AsDict(lines: seq<string>): (r: Result<map<string, string>>)
    ensures r.Failure? <==> exists i :: 0 <= i < |lines| && Entry(lines[i]).Failure?
    ensures r.Success? <==> Entries(lines).Success?
    ensures r.Success? ==> var es := Entries(lines).value;
      && (forall k :: k in r.value <==> exists i :: 0 <= i < |es| && Sets(es[i], k))
      && (forall k, i :: LastSets(es, i, k) ==> k in r.value && r.value[k] == es[i].value.1)
  {
    var es :- Entries(lines);
    Success(DictOf(es))
  }

  // ---- attributes ----

  /** `int(value)`: an integer stays, a text is parsed, and `None` raises `TypeError`. */
  function AsInt(v: Value): (r: Result<int>)
    ensures v.VInt? ==> r == Success(v.i)
    ensures v.VNone? ==> r == Failure(TypeError)
  {
    match v
    case VNone => Failure(TypeError)
    case VInt(i) => Success(i)
    case VStr(s) => ParseInt(s)
  }

  /**
   * `setattr(self, name, int(getattr(self, name)))` for each of `names` in
   * turn: it fails when one of them is missing or not an integer; otherwise
   * each of them holds its integer and nothing else changes.
   */
  function CoerceAll(c: Attributes, names: seq<string>): (r: Result<Attributes>)
    ensures r.Failure? <==> !Coercible(c, names)
    ensures r.Success? ==> Coerced(c, names, r.value)
    decreases |names|
  {
    if names == [] then Success(c)
    else
      var name := names[0];
      if name !in c then Failure(AttributeError(name))
      else
        var n :- AsInt(c[name]);
        var r := CoerceAll(c[name := VInt(n)], names[1..]);
        CoerceStep(c, names, n);
        if r.Success? then CoercedStep(c, names, n, r.value); r else r
  }

  /** Every one of `names` is an attribute of `c` that `int` accepts. */
  predicate Coercible(c: Attributes, names: seq<string>) {
    forall k :: k in names ==> k in c && AsInt(c[k]).Success?
  }

  /** `d` is `c` with each of `names` replaced by its integer, and nothing else changed. */
  predicate Coerced(c: Attributes, names: seq<string>, d: Attributes)
    requires Coercible(c, names)
  {
    && d.Keys == c.Keys
    && (forall k :: k in c && k !in names ==> d[k] == c[k])
    && (forall k :: k in names ==> d[k] == VInt(AsInt(c[k]).value))
  }

  lemma CoerceStep(c: Attributes, names: seq<string>, n: int)
    requires names != [] && names[0] in c && AsInt(c[names[0]]) == Success(n)
    ensures Coercible(c[names[0] := VInt(n)], names[1..]) <==> Coercible(c, names)
  {
    if Coercible(c[names[0] := VInt(n)], names[1..]) {
      CoercibleBack(c, names, n);
    }
    if Coercible(c, names) {
      CoercibleOn(c, names, n);
    }
  }

  lemma CoercibleBack(c: Attributes, names: seq<string>, n: int)
    requires names != [] && names[0] in c && AsInt(c[names[0]]) == Success(n)
    requires Coercible(c[names[0] := VInt(n)], names[1..])
    ensures Coercible(c, names)
  {
    forall k | k in names
      ensures k in c && AsInt(c[k]).Success?
    {
      if k != names[0] {
        assert k in names[1..];
      }
    }
  }

  lemma CoercibleOn(c: Attributes, names: seq<string>, n: int)
    requires names != [] && names[0] in c && AsInt(c[names[0]]) == Success(n)
    requires Coercible(c, names)
    ensures Coercible(c[names[0] := VInt(n)], names[1..])
  {
    forall k | k in names[1..]
      ensures k in c[names[0] := VInt(n)] && AsInt(c[names[0] := VInt(n)][k]).Success?
    {
      assert k in names;
    }
  }

  lemma CoercedStep(c: Attributes, names: seq<string>, n: int, d: Attributes)
    requires names != [] && names[0] in c && AsInt(c[names[0]]) == Success(n)
    requires Coercible(c[names[0] := VInt(n)], names[1..])
    requires Coerced(c[names[0] := VInt(n)], names[1..], d)
    ensures Coercible(c, names) && Coerced(c, names, d)
  {
    CoerceStep(c, names, n);
    assert forall k :: k in names <==> k == names[0] || k in names[1..];
  }

  /**
   * `update(**kwargs)`, and `__dict__.update`: every given attribute takes its
   * given value, and every other attribute keeps its own.
   */
  function Update(c: Attributes, kw: map<string, Value>): (r: Attributes)
    ensures r.Keys == c.Keys + kw.Keys
    ensures forall k :: k in kw ==> r[k] == kw[k]
    ensures forall k :: k in c && k !in kw ==> r[k] == c[k]
  {
    map k | k in c.Keys + kw.Keys :: if k in kw then kw[k] else c[k]
  }

  /** The entries of a file as attribute values: every one of them a text. */
  function Texts(d: map<string, string>): (r: map<string, Value>)
    ensures r.Keys == d.Keys
    ensures forall k :: k in d ==> r[k] == VStr(d[k])
  {
    map k | k in d :: VStr(d[k])
  }

  /**
   * `Configuration(**kwargs)`: the defaults with the given arguments in
   * their place; an argument the constructor does not declare raises
   * `TypeError`.
   */
  function New(kw: map<string, Value>): (r: Result<Attributes>)
    ensures r.Success? <==> kw.Keys <= Defaults.Keys
    ensures r.Success? ==> r.value.Keys == Defaults.Keys
    ensures r.Success? ==> forall k :: k in Defaults ==> r.value[k] == if k in kw then kw[k] else Defaults[k]
  {
    if kw.Keys <= Defaults.Keys then Success(Update(Defaults, kw)) else Failure(TypeError)
  }

  /**
   * `parse_config_file(lines)`: every entry of the file laid over the
   * attributes as a text, then the four integer attributes coerced with
   * `int`; a malformed line, a missing integer attribute or one that is not
   * an integer makes it raise.
   */
  function ParseConfigFile(c: Attributes, lines: seq<string>): (r: Result<Attributes>)
    ensures AsDict(lines).Failure? ==> r.Failure?
    ensures AsDict(lines).Success? ==> var u := Update(c, Texts(AsDict(lines).value));
      && (r.Failure? <==> exists k :: k in IntegerAttributes && (k !in u || AsInt(u[k]).Failure?))
      && (r.Success? ==> r.value.Keys == u.Keys)
      && (r.Success? ==> forall k :: k in u && k !in IntegerAttributes ==> r.value[k] == u[k])
      && (r.Success? ==> forall k :: k in IntegerAttributes ==> r.value[k] == VInt(AsInt(u[k]).value))
  {
    var d :- AsDict(lines);
    CoerceAll(Update(c, Texts(d)), IntegerAttributes)
  }

  /**
   * Coercion gives the same attributes from two sets of attributes that
   * differ only in how they spell the same integers.
   */
  lemma CoerceAgree(u: Attributes, v: Attributes, names: seq<string>)
    requires u.Keys == v.Keys
    requires forall k :: k in u && k !in names ==> u[k] == v[k]
    requires forall k :: k in names ==> k in u && AsInt(u[k]).Success? && AsInt(v[k]) == AsInt(u[k])
    ensures CoerceAll(u, names) == CoerceAll(v, names)
  {
    assert forall k :: k in names ==> k in v && AsInt(v[k]).Success?;
    var a := CoerceAll(u, names).value;
    var b := CoerceAll(v, names).value;
    assert CoerceAll(u, names).Success? && CoerceAll(v, names).Success?;
    assert a.Keys == b.Keys;
    forall k | k in a
      ensures a[k] == b[k]
    {
      if k in names {
        assert a[k] == VInt(AsInt(u[k]).value);
      }
    }
    assert a == b;
  }

  /** Parsing the same file a second time changes nothing. */
  lemma ParseIdempotent(c: Attributes, lines: seq<string>)
    requires ParseConfigFile(c, lines).Success?
    ensures ParseConfigFile(ParseConfigFile(c, lines).value, lines) == ParseConfigFile(c, lines)
  {
    var d := AsDict(lines).value;
    var r1 := ParseConfigFile(c, lines).value;
    var u := Update(c, Texts(d));
    var v := Update(r1, Texts(d));
    forall k | k in IntegerAttributes
      ensures k in u && AsInt(u[k]).Success? && AsInt(v[k]) == AsInt(u[k])
    {
    }
    CoerceAgree(u, v, IntegerAttributes);
  }

  /** `parse_config_file` for each file in turn, stopping at the first that raises. */
  function ParseFiles(c: Attributes, files: seq<seq<string>>): (r: Result<Attributes>)
    ensures files == [] ==> r == Success(c)
    ensures r.Success? ==> c.Keys <= r.value.Keys
    ensures r.Success? && files != [] ==> forall k :: k in IntegerAttributes ==> k in r.value && r.value[k].VInt?
    decreases |files|
  {
    if files == [] then Success(c)
    else
      var before :- ParseFiles(c, files[..|files| - 1]);
      ParseConfigFile(before, files[|files| - 1])
  }

  /**
   * `Configuration.create(*files)`: the defaults with each file parsed over
   * them in turn; every default attribute is still there and the integer
   * attributes hold integers.
   */
  function Create(files: seq<seq<string>>): (r: Result<Attributes>)
    ensures files == [] ==> r == Success(Defaults)
    ensures r.Success? ==> Defaults.Keys <= r.value.Keys
    ensures r.Success? ==> forall k :: k in IntegerAttributes ==> k in r.value && r.value[k].VInt?
  {
    assert forall k :: k in IntegerAttributes ==> k in Defaults && Defaults[k].VInt?;
    ParseFiles(Defaults, files)
  }

  /** One file: a text attribute it sets takes its value, and one it does not set keeps its own. */
  lemma FileSets(c: Attributes, lines: seq<string>, k: string)
    requires ParseConfigFile(c, lines).Success? && k !in IntegerAttributes
    ensures var d := AsDict(lines).value; var r := ParseConfigFile(c, lines).value;
      && (k in d ==> k in r && r[k] == VStr(d[k]))
      && (k !in d && k in c ==> k in r && r[k] == c[k])
  {
  }

  /**
   * The last of several files: a text attribute it sets takes its value, and
   * one it does not set keeps the value the files before it left.
   */
  lemma LastFileSets(c: Attributes, files: seq<seq<string>>, k: string)
    requires files != [] && ParseFiles(c, files).Success? && k !in IntegerAttributes
    ensures var n := |files| - 1;
      && ParseFiles(c, files[..n]).Success? && AsDict(files[n]).Success?
      && var before := ParseFiles(c, files[..n]).value;
      && var d := AsDict(files[n]).value;
      && var r := ParseFiles(c, files).value;
      && (k in d ==> k in r && r[k] == VStr(d[k]))
      && (k !in d && k in before ==> k in r && r[k] == before[k])
  {
    var n := |files| - 1;
    FileSets(ParseFiles(c, files[..n]).value, files[n], k);
  }

  /** Parsing two runs of files one after the other is parsing them all at once. */
  lemma {:induction false} ParseFilesAppend(c: Attributes, a: seq<seq<string>>, b: seq<seq<string>>)
    ensures ParseFiles(c, a).Failure? ==> ParseFiles(c, a + b).Failure?
    ensures ParseFiles(c, a).Success? ==> ParseFiles(c, a + b) == ParseFiles(ParseFiles(c, a).value, b)
    decreases |b|
  {
    if b == [] {
      assert a + b == a;
    } else {
      var n := |b| - 1;
      assert (a + b)[..|a + b| - 1] == a + b[..n];
      assert (a + b)[|a + b| - 1] == b[n];
      ParseFilesAppend(c, a, b[..n]);
    }
  }

  /**
   * Later files override earlier ones: a text attribute set by file `f` and
   * by none of the files after it has `f`'s value, whatever the files before
   * it said.
   */
  lemma LaterFileWins(c: Attributes, before: seq<seq<string>>, f: seq<string>, after: seq<seq<string>>, k: string)
    requires ParseFiles(c, before + [f] + after).Success? && k !in IntegerAttributes
    requires AsDict(f).Success? && k in AsDict(f).value
    requires forall j :: 0 <= j < |after| ==> AsDict(after[j]).Success? && k !in AsDict(after[j]).value
    ensures k in ParseFiles(c, before + [f] + after).value
    ensures ParseFiles(c, before + [f] + after).value[k] == VStr(AsDict(f).value[k])
  {
    var upTo := before + [f];
    ParseFilesAppend(c, upTo, after);
    assert upTo[..|upTo| - 1] == before;
    LastFileSets(c, upTo, k);
    UntouchedKept(ParseFiles(c, upTo).value, after, k);
  }

  /** A text attribute that no file sets keeps its value. */
  lemma {:induction false} UntouchedKept(c: Attributes, files: seq<seq<string>>, k: string)
    requires ParseFiles(c, files).Success? && k !in IntegerAttributes && k in c
    requires forall j :: 0 <= j < |files| ==> AsDict(files[j]).Success? && k !in AsDict(files[j]).value
    ensures k in ParseFiles(c, files).value && ParseFiles(c, files).value[k] == c[k]
    decreases |files|
  {
    if files != [] {
      var n := |files| - 1;
      UntouchedKept(c, files[..n], k);
      LastFileSets(c, files, k);
    }
  }

  // ---- validation ----

  /** Python truth: `None`, `0` and the empty text are false. */
  predicate Falsy(v: Value) {
    v == VNone || v == VInt(0) || v == VStr("")
  }

  /**
   * `re.match(".+@.+[.].+", s)`: some prefix of `s` is one or more characters
   * other than a newline, an `@`, one or more of them, a dot, and one or more
   * of them.
   */
  predicate EmailPattern(s: string) {
    exists a, b :: 1 <= a && a + 2 <= b && b + 1 < |s| && s[a] == '@' && s[b] == '.' && '\n' !in s[..b + 2]
  }

  /** The position of the first `c` in `s` at or after `from`, or `|s|` when there is none. */
  function Find(s: string, c: char, from: nat): (i: nat)
    requires from <= |s|
    ensures from <= i <= |s|
    ensures i < |s| ==> s[i] == c
    ensures forall k :: from <= k < i ==> s[k] != c
    decreases |s| - from
  {
    if from == |s| || s[from] == c then from else Find(s, c, from + 1)
  }

  /**
   * The email rule by scanning: within the first line, the first `@` after
   * the first character, then the first dot at least two characters on, and
   * at least one character after that dot.
   */
  function EmailMatches(s: string): (ok: bool)
    ensures ok <==> EmailPattern(s)
  {
    var n := Find(s, '\n', 0);
    var line := s[..n];
    if |line| < 1 then
      EmailNeedsLine(s);
      false
    else
      var a := Find(line, '@', 1);
      var ok := a + 2 <= |line| && Find(line, '.', a + 2) + 1 < |line|;
      EmailScan(s, n, a, ok);
      ok
  }

  /** An email whose first line is empty matches nothing. */
  lemma EmailNeedsLine(s: string)
    requires Find(s, '\n', 0) == 0
    ensures !EmailPattern(s)
  {
    forall a, b | 1 <= a && a + 2 <= b && b + 1 < |s| && s[a] == '@' && s[b] == '.'
      ensures '\n' in s[..b + 2]
    {
      assert s[..b + 2][0] == s[0];
    }
  }

  /** The scan finds a match exactly when the pattern has one. */
  lemma EmailScan(s: string, n: nat, a: nat, ok: bool)
    requires n == Find(s, '\n', 0) && n >= 1 && a == Find(s[..n], '@', 1)
    requires ok == (a + 2 <= n && Find(s[..n], '.', a + 2) + 1 < n)
    ensures ok <==> EmailPattern(s)
  {
    var line := s[..n];
    if ok {
      var b := Find(line, '.', a + 2);
      forall k | 0 <= k < b + 2
        ensures s[k] != '\n'
      {
        assert s[k] == line[k];
      }
      assert s[a] == line[a] && s[b] == line[b];
    }
    if EmailPattern(s) {
      var a', b' :| 1 <= a' && a' + 2 <= b' && b' + 1 < |s| && s[a'] == '@' && s[b'] == '.' && '\n' !in s[..b' + 2];
      forall k | 0 <= k < b' + 2
        ensures s[k] != '\n'
      {
        assert s[..b' + 2][k] == s[k];
      }
      assert line[a'] == '@' && line[b'] == '.';
    }
  }

  /** Python 2 `x < y` for texts: by code points, a proper prefix first. */
  predicate TextLess(x: string, y: string)
    decreases |x|
  {
    if |x| == 0 then |y| > 0
    else if |y| == 0 then false
    else if x[0] != y[0] then x[0] < y[0]
    else TextLess(x[1..], y[1..])
  }

  /**
   * Python 2 `a < b` across types: `None` before every number, every number
   * before every text, numbers by value and texts by code points.
   */
  predicate Less(a: Value, b: Value) {
    match (a, b)
    case (VNone, VNone) => false
    case (VNone, _) => true
    case (VInt(x), VInt(y)) => x < y
    case (VInt(_), VStr(_)) => true
    case (VStr(x), VStr(y)) => TextLess(x, y)
    case _ => false
  }

  /** `0 < min <= max`, a chained comparison. */
  predicate CountsInOrder(min: Value, max: Value) {
    Less(VInt(0), min) && (min == max || Less(min, max))
  }

  /**
   * The rules `validate()` checks before the instance counts: every
   * attribute must be true and the email must match the pattern. Which false
   * attribute it names depends on the dictionary's iteration order, so the
   * failure names none.
   */
  function CheckFields(c: Attributes): (r: Outcome)
    ensures (exists k :: k in c && Falsy(c[k])) ==> r == Fail(InvalidConfiguration("missing"))
    ensures r.Pass? <==>
      && (forall k :: k in c ==> !Falsy(c[k]))
      && "email" in c && c["email"].VStr? && EmailPattern(c["email"].s)
  {
    if exists k :: k in c && Falsy(c[k]) then Fail(InvalidConfiguration("missing"))
    else if "email" !in c then Fail(AttributeError("email"))
    else if !c["email"].VStr? then Fail(TypeError)
    else if !EmailMatches(c["email"].s) then Fail(InvalidConfiguration("email"))
    else Pass
  }

  /**
   * `validate()` as written, without the `.pem` file check: the field rules,
   * then `0 < min_instance_count <= max_instance_count` on the attributes as
   * they are, with Python 2's ordering across types.
   */
  function Validate(c: Attributes): (r: Outcome)
    ensures CheckFields(c).Fail? ==> r == CheckFields(c)
    ensures r.Pass? <==>
      && CheckFields(c).Pass?
      && "min_instance_count" in c && "max_instance_count" in c
      && CountsInOrder(c["min_instance_count"], c["max_instance_count"])
    ensures r.Pass? && c["min_instance_count"].VInt? && c["max_instance_count"].VInt? ==>
      0 < c["min_instance_count"].i <= c["max_instance_count"].i
  {
    var fields := CheckFields(c);
    if fields.Fail? then fields
    else if "min_instance_count" !in c then Fail(AttributeError("min_instance_count"))
    else if "max_instance_count" !in c then Fail(AttributeError("max_instance_count"))
    else if !CountsInOrder(c["min_instance_count"], c["max_instance_count"]) then Fail(InvalidConfiguration("instance counts"))
    else Pass
  }

  /**
   * `validate()` with the counts read as numbers: they must both be integers
   * (or texts of integers) and satisfy `0 < min <= max` as numbers.
   */
  function ValidateCounted(c: Attributes): (r: Outcome)
    ensures CheckFields(c).Fail? ==> r == CheckFields(c)
    ensures r.Pass? <==>
      && CheckFields(c).Pass?
      && "min_instance_count" in c && "max_instance_count" in c
      && AsInt(c["min_instance_count"]).Success? && AsInt(c["max_instance_count"]).Success?
      && 0 < AsInt(c["min_instance_count"]).value <= AsInt(c["max_instance_count"]).value
  {
    var fields := CheckFields(c);
    if fields.Fail? then fields
    else if "min_instance_count" !in c then Fail(AttributeError("min_instance_count"))
    else if "max_instance_count" !in c then Fail(AttributeError("max_instance_count"))
    else
      match (AsInt(c["min_instance_count"]), AsInt(c["max_instance_count"]))
      case (Success(lo), Success(hi)) =>
        if 0 < lo <= hi then Pass else Fail(InvalidConfiguration("instance counts"))
      case _ => Fail(InvalidConfiguration("instance counts"))
  }

  /** For integers the count rule is exactly `0 < min <= max`. */
  lemma CountsOnIntegers(min: int, max: int)
    ensures CountsInOrder(VInt(min), VInt(max)) <==> 0 < min <= max
  {
  }

  /**
   * On integer counts, which is all `parse_config_file` leaves, the two
   * readings of the count rule agree.
   */
  lemma ValidateAgreesOnIntegers(c: Attributes)
    requires "min_instance_count" in c && c["min_instance_count"].VInt?
    requires "max_instance_count" in c && c["max_instance_count"].VInt?
    ensures Validate(c) == ValidateCounted(c)
  {
    CountsOnIntegers(c["min_instance_count"].i, c["max_instance_count"].i);
  }

  /**
   * Python 2 puts every text after every number, so the texts `"0"` and
   * `"0"` pass the count rule as written although `int("0")` is 0; read as
   * numbers they fail it.
   */
  lemma ZeroTextCounts(c: Attributes)
    requires Validate(c).Pass?
    ensures var z := c["min_instance_count" := VStr("0")]["max_instance_count" := VStr("0")];
      Validate(z).Pass? && ValidateCounted(z) == Fail(InvalidConfiguration("instance counts"))
  {
    var z := c["min_instance_count" := VStr("0")]["max_instance_count" := VStr("0")];
    TextCountsKeepFields(c, "0", "0");
    TextCountsInOrder("0");
    ZeroText();
  }

  /**
   * The same ordering lets the texts `"-1"` and `"-1"` through as well, and
   * `int` then reads a negative `max_instance_count` from them.
   */
  lemma NegativeTextCounts(c: Attributes)
    requires Validate(c).Pass?
    ensures var z := c["min_instance_count" := VStr("-1")]["max_instance_count" := VStr("-1")];
      Validate(z).Pass? && AsInt(z["max_instance_count"]) == Success(-1)
      && ValidateCounted(z) == Fail(InvalidConfiguration("instance counts"))
  {
    TextCountsKeepFields(c, "-1", "-1");
    TextCountsInOrder("-1");
    MinusOneText();
  }

  /** `int("-1") == -1`. */
  lemma MinusOneText()
    ensures AsInt(VStr("-1")) == Success(-1)
  {
    assert IntToString(-1) == "-1" by {
      assert DigitChar(1) == '1';
      assert NatToString(1) == "1";
    }
    IntRoundTrip(-1);
  }

  /** Read as numbers, the count rule admits only a positive `max_instance_count`. */
  lemma CountedMaxPositive(c: Attributes)
    requires ValidateCounted(c).Pass?
    ensures "max_instance_count" in c && AsInt(c["max_instance_count"]).Success?
    ensures AsInt(c["max_instance_count"]).value >= 1
  {
  }

  /** Any text as both counts passes the count rule as written: a text is above every number. */
  lemma TextCountsInOrder(t: string)
    ensures CountsInOrder(VStr(t), VStr(t))
  {
  }

  /** Setting the counts to non-empty texts leaves the field rules passing. */
  lemma TextCountsKeepFields(c: Attributes, lo: string, hi: string)
    requires CheckFields(c).Pass? && lo != [] && hi != []
    ensures CheckFields(c["min_instance_count" := VStr(lo)]["max_instance_count" := VStr(hi)]).Pass?
  {
    var z := c["min_instance_count" := VStr(lo)]["max_instance_count" := VStr(hi)];
    forall k | k in z
      ensures !Falsy(z[k])
    {
      if k != "min_instance_count" && k != "max_instance_count" {
        assert z[k] == c[k];
      }
    }
    assert z["email"] == c["email"];
  }

  /** `int("0") == 0`. */
  lemma ZeroText()
    ensures AsInt(VStr("0")) == Success(0)
  {
    IntRoundTrip(0);
    assert IntToString(0) == "0";
  }

  /**
   * Keywords that give every attribute left as `None` a true value make a
   * configuration whose attributes are all true.
   */
  lemma NewAllTrue(kw: map<string, Value>)
    requires kw.Keys <= Defaults.Keys
    requires forall k :: k in kw ==> !Falsy(kw[k])
    requires forall k :: k in Defaults && Falsy(Defaults[k]) ==> k in kw
    ensures New(kw).Success?
    ensures forall k :: k in New(kw).value ==> !Falsy(New(kw).value[k])
  {
    var c := New(kw).value;
    forall k | k in c
      ensures !Falsy(c[k])
    {
      assert c[k] == if k in kw then kw[k] else Defaults[k];
    }
  }

  /**
   * `Configuration(**kw)` validates when the keywords give every `None`
   * attribute a true value and a matching email and leave the counts at
   * their defaults of one.
   */
  lemma NewValidates(kw: map<string, Value>)
    requires kw.Keys <= Defaults.Keys
    requires forall k :: k in kw ==> !Falsy(kw[k])
    requires forall k :: k in Defaults && Falsy(Defaults[k]) ==> k in kw
    requires "email" in kw && kw["email"].VStr? && EmailPattern(kw["email"].s)
    requires "min_instance_count" !in kw && "max_instance_count" !in kw
    ensures New(kw).Success? && Validate(New(kw).value).Pass?
  {
    NewAllTrue(kw);
    var c := New(kw).value;
    assert c["min_instance_count"] == VInt(1) && c["max_instance_count"] == VInt(1);
  }

  /** The defaults alone do not validate: the project and the email are `None`. */
  lemma DefaultsRejected()
    ensures Validate(Defaults) == Fail(InvalidConfiguration("missing"))
    ensures ValidateCounted(Defaults) == Fail(InvalidConfiguration("missing"))
  {
    assert "project" in Defaults && Falsy(Defaults["project"]);
  }
}
