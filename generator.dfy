/**
 * The example-descriptor generator of utils/utils.py: pick the next free
 * `descriktor_<n>.json` name in a folder, write `{}` under it, and make sure
 * the folder has an `etl_pipeline.py`.
 */
module Generator {
  import opened Wrappers
  import opened Strings
  import opened PyInt

  const PREFIX := "descriktor_"
  const SUFFIX := ".json"
  const PIPELINE_FILE := "etl_pipeline.py"
  const PIPELINE_STUB := "# Pipeline script"
  /** What `json.dump({}, f)` writes. */
  const EMPTY_JSON := "{}"

  /** `f.startswith("descriktor_") and f.endswith(".json")`. */
  predicate IsDescriptorFile(name: string)
  {
    PREFIX <= name && |SUFFIX| <= |name| && name[|name| - |SUFFIX|..] == SUFFIX
  }

  /**
   * `int(item.split('.')[0].split('_')[1])`: the second `_`-field of the text
   * before the first dot, read as an integer; None where Python raises.
   */
  function CounterOf(name: string): Option<int>
  {
    var stem := Split(name, '.')[0];
    var fields := Split(stem, '_');
    if |fields| < 2 then None else ParseInt(fields[1])
  }

  /** The descriptor files among `names`, in listing order. */
  function DescriptorFiles(names: seq<string>): (r: seq<string>)
    ensures forall k :: 0 <= k < |r| ==> IsDescriptorFile(r[k]) && r[k] in names
    ensures forall k :: 0 <= k < |names| && IsDescriptorFile(names[k]) ==> names[k] in r
    decreases |names|
  {
    if names == [] then []
    else
      var init := names[..|names| - 1];
      var last := names[|names| - 1];
      assert forall k :: 0 <= k < |init| ==> init[k] == names[k];
      DescriptorFiles(init) + (if IsDescriptorFile(last) then [last] else [])
  }

  /** The counter of every file, in order (the list comprehension before any error is raised). */
  function ParsedCounters(files: seq<string>): (r: seq<Option<int>>)
    ensures |r| == |files|
  {
    seq(|files|, k requires 0 <= k < |files| => CounterOf(files[k]))
  }

  /** All the counters when every one of them parsed, and None as soon as one did not. */
  function Collect(parsed: seq<Option<int>>): (r: Option<seq<int>>)
    ensures r.Some? <==> forall k :: 0 <= k < |parsed| ==> parsed[k].Some?
    ensures r.Some? ==> |r.value| == |parsed| && forall k :: 0 <= k < |parsed| ==> parsed[k] == Some(r.value[k])
    decreases |parsed|
  {
    if parsed == [] then Some([])
    else
      var init := parsed[..|parsed| - 1];
      assert forall k :: 0 <= k < |init| ==> init[k] == parsed[k];
      var front := Collect(init);
      var last := parsed[|parsed| - 1];
      if front.None? || last.None? then None else Some(front.value + [last.value])
  }

  /** Python's `max` of a non-empty list. */
  function Max(s: seq<int>): (r: int)
    requires |s| > 0
    ensures forall k :: 0 <= k < |s| ==> s[k] <= r
    ensures r in s
    decreases |s|
  {
    if |s| == 1 then s[0]
    else
      var m := Max(s[..|s| - 1]);
      assert forall k :: 0 <= k < |s| - 1 ==> s[..|s| - 1][k] == s[k];
      if m < s[|s| - 1] then s[|s| - 1] else m
  }

  /** `max(counters) + 1` over the descriptor files, or 0 when there are none. */
  function CounterAfter(files: seq<string>): Option<int>
  {
    if files == [] then Some(0)
    else match Collect(ParsedCounters(files))
      case None => None
      case Some(cs) => Some(Max(cs) + 1)
  }

  /** The counter the generator picks for a folder listing `names`, or None where Python raises. */
  function NextCounter(names: seq<string>): Option<int>
  {
    CounterAfter(DescriptorFiles(names))
  }

  /** `f"descriktor_{counter}.json"`. */
  function DescriptorFileName(counter: int): string
  {
    PREFIX + IntToString(counter) + SUFFIX
  }

  /** With no descriptor file in the folder the counter is 0 (soundness of `DescriptorFiles`). */
  lemma NextCounterOfNoDescriptors(names: seq<string>)
    requires forall k :: 0 <= k < |names| ==> !IsDescriptorFile(names[k])
    ensures NextCounter(names) == Some(0)
  {
  }

  /** The generator fails exactly when some descriptor file's counter does not parse. */
  lemma NextCounterFailsIffBadCounter(names: seq<string>)
    ensures NextCounter(names).None? <==>
      exists k :: 0 <= k < |names| && IsDescriptorFile(names[k]) && CounterOf(names[k]).None?
  {
    var files := DescriptorFiles(names);
    CounterAfterFailsIff(files);
    if NextCounter(names).None? {
      var j :| 0 <= j < |files| && CounterOf(files[j]).None?;
      var k :| 0 <= k < |names| && names[k] == files[j];
    }
    if k :| 0 <= k < |names| && IsDescriptorFile(names[k]) && CounterOf(names[k]).None? {
      var j :| 0 <= j < |files| && files[j] == names[k];
    }
  }

  /** The same statement over the descriptor files themselves. */
  lemma CounterAfterFailsIff(files: seq<string>)
    ensures CounterAfter(files).None? <==> exists j :: 0 <= j < |files| && CounterOf(files[j]).None?
  {
    var parsed := ParsedCounters(files);
    if j :| 0 <= j < |files| && CounterOf(files[j]).None? {
      assert parsed[j].None?;
    }
  }

  /**
   * When there are descriptor files and all of them parse, the counter is one
   * more than the largest of them: above every existing counter, and just
   * above one of them.
   */
  lemma NextCounterIsMaxPlusOne(names: seq<string>)
    requires exists k :: 0 <= k < |names| && IsDescriptorFile(names[k])
    requires NextCounter(names).Some?
    ensures forall f :: f in names && IsDescriptorFile(f) ==>
      CounterOf(f).Some? && CounterOf(f).value < NextCounter(names).value
    ensures exists f ::
      f in names && IsDescriptorFile(f) && CounterOf(f).Some? && CounterOf(f).value == NextCounter(names).value - 1
  {
    NextCounterAboveAll(names);
    var top := NextCounterJustAboveOne(names);
  }

  /** Every descriptor file's counter parses and lies below the pick. */
  lemma NextCounterAboveAll(names: seq<string>)
    requires exists k :: 0 <= k < |names| && IsDescriptorFile(names[k])
    requires NextCounter(names).Some?
    ensures forall f :: f in names && IsDescriptorFile(f) ==>
      CounterOf(f).Some? && CounterOf(f).value < NextCounter(names).value
  {
    var files := DescriptorFiles(names);
    DescriptorFilesMembers(names);
    var k0 :| 0 <= k0 < |names| && IsDescriptorFile(names[k0]);
    assert names[k0] in files;
    assert NextCounter(names) == CounterAfter(files);
    var _ := CounterAfterIsMaxPlusOne(files);
  }

  /** A descriptor file whose counter lies just below the pick. */
  lemma NextCounterJustAboveOne(names: seq<string>) returns (top: string)
    requires exists k :: 0 <= k < |names| && IsDescriptorFile(names[k])
    requires NextCounter(names).Some?
    ensures top in names && IsDescriptorFile(top)
    ensures CounterOf(top).Some? && CounterOf(top).value == NextCounter(names).value - 1
  {
    var files := DescriptorFiles(names);
    DescriptorFilesMembers(names);
    var k0 :| 0 <= k0 < |names| && IsDescriptorFile(names[k0]);
    assert names[k0] in files;
    assert NextCounter(names) == CounterAfter(files);
    top := CounterAfterIsMaxPlusOne(files);
  }

  /** A name is among the descriptor files exactly when it is a listed descriptor file. */
  lemma DescriptorFilesMembers(names: seq<string>)
    ensures forall f :: f in DescriptorFiles(names) <==> f in names && IsDescriptorFile(f)
  {
    var files := DescriptorFiles(names);
    forall f | f in names && IsDescriptorFile(f)
      ensures f in files
    {
      var k :| 0 <= k < |names| && names[k] == f;
    }
  }

  /** The same statement over the descriptor files themselves. */
  lemma CounterAfterIsMaxPlusOne(files: seq<string>) returns (top: string)
    requires |files| > 0 && CounterAfter(files).Some?
    ensures forall f :: f in files ==> CounterOf(f).Some? && CounterOf(f).value < CounterAfter(files).value
    ensures top in files && CounterOf(top).Some? && CounterOf(top).value == CounterAfter(files).value - 1
  {
    var parsed := ParsedCounters(files);
    CollectedMax(parsed);
    var c := CounterAfter(files).value;
    assert c == Max(Collect(parsed).value) + 1;
    forall f | f in files
      ensures CounterOf(f).Some? && CounterOf(f).value < c
    {
      var j :| 0 <= j < |files| && files[j] == f;
      assert parsed[j] == CounterOf(f);
    }
    var j :| 0 <= j < |parsed| && parsed[j] == Some(c - 1);
    assert parsed[j] == CounterOf(files[j]);
    top := files[j];
  }

  /** Every collected counter is at most their maximum, and one of them is the maximum. */
  lemma CollectedMax(parsed: seq<Option<int>>)
    requires |parsed| > 0 && Collect(parsed).Some?
    ensures forall j :: 0 <= j < |parsed| ==> parsed[j].Some? && parsed[j].value <= Max(Collect(parsed).value)
    ensures exists j :: 0 <= j < |parsed| && parsed[j] == Some(Max(Collect(parsed).value))
  {
    var cs := Collect(parsed).value;
    var j :| 0 <= j < |cs| && cs[j] == Max(cs);
    assert parsed[j] == Some(cs[j]);
  }

  /** The text before the first dot of a generated name is `descriktor_<counter>`. */
  lemma DescriptorFileNameStem(counter: int)
    ensures Split(DescriptorFileName(counter), '.')[0] == PREFIX + IntToString(counter)
  {
    var digits := IntToString(counter);
    var stem := PREFIX + digits;
    IntToStringCharacters(counter);
    assert DescriptorFileName(counter) == stem + ['.'] + "json";
    forall i | 0 <= i < |stem|
      ensures stem[i] != '.'
    {
      if i >= |PREFIX| {
        assert stem[i] == digits[i - |PREFIX|];
      }
    }
    SplitFirstPiece(stem, '.', "json");
  }

  /** `descriktor_<counter>` splits at `_` into the word and the counter text. */
  lemma DescriptorStemFields(counter: int)
    ensures Split(PREFIX + IntToString(counter), '_') == ["descriktor", IntToString(counter)]
  {
    var digits := IntToString(counter);
    IntToStringCharacters(counter);
    assert PREFIX + digits == "descriktor" + ['_'] + digits;
    assert '_' !in digits;
    SplitTwoFields("descriktor", '_', digits);
  }

  /** The name the generator writes is itself a descriptor file name, and it reads back as its counter. */
  lemma DescriptorFileNameRoundTrip(counter: int)
    ensures IsDescriptorFile(DescriptorFileName(counter))
    ensures CounterOf(DescriptorFileName(counter)) == Some(counter)
  {
    var name := DescriptorFileName(counter);
    assert name[|name| - |SUFFIX|..] == SUFFIX;
    DescriptorFileNameStem(counter);
    DescriptorStemFields(counter);
    ParseIntOfIntToString(counter);
  }

  /**
   * Freshness: the name the generator picks is not already in the folder, so
   * no earlier descriptor is overwritten, and it is not the pipeline file.
   */
  lemma NewDescriptorIsFresh(names: seq<string>)
    requires NextCounter(names).Some?
    ensures DescriptorFileName(NextCounter(names).value) !in names
    ensures DescriptorFileName(NextCounter(names).value) != PIPELINE_FILE
  {
    assert !IsDescriptorFile(PIPELINE_FILE);
    var c := NextCounter(names).value;
    var name := DescriptorFileName(c);
    DescriptorFileNameRoundTrip(c);
    forall k | 0 <= k < |names|
      ensures names[k] != name
    {
      if IsDescriptorFile(names[k]) {
        NextCounterIsMaxPlusOne(names);
        assert CounterOf(names[k]).value < c;
      }
    }
  }

  /** Adding a file to the end of the listing adds it to the descriptor files exactly when it is one. */
  lemma DescriptorFilesAppend(names: seq<string>, f: string)
    ensures DescriptorFiles(names + [f]) == DescriptorFiles(names) + (if IsDescriptorFile(f) then [f] else [])
  {
    assert (names + [f])[..|names|] == names;
  }

  /** Appending names that are not descriptor files leaves the descriptor files as they were. */
  lemma {:induction false} DescriptorFilesAppendOthers(names: seq<string>, extra: seq<string>)
    requires forall k :: 0 <= k < |extra| ==> !IsDescriptorFile(extra[k])
    ensures DescriptorFiles(names + extra) == DescriptorFiles(names)
    decreases |extra|
  {
    if extra == [] {
      assert names + extra == names;
    } else {
      var init := extra[..|extra| - 1];
      DescriptorFilesAppendOthers(names, init);
      DescriptorFilesAppend(names + init, extra[|extra| - 1]);
      assert names + extra == names + init + [extra[|extra| - 1]];
    }
  }

  /** Collecting one more parsed counter appends it. */
  lemma CollectAppend(parsed: seq<Option<int>>, c: int)
    requires Collect(parsed).Some?
    ensures Collect(parsed + [Some(c)]) == Some(Collect(parsed).value + [c])
  {
    assert (parsed + [Some(c)])[..|parsed|] == parsed;
  }

  /** A new largest value becomes the maximum. */
  lemma MaxAppendAbove(cs: seq<int>, c: int)
    requires |cs| > 0 && Max(cs) < c
    ensures Max(cs + [c]) == c
  {
    assert (cs + [c])[..|cs|] == cs;
  }

  /** Parsing one more file appends its counter. */
  lemma ParsedCountersAppend(files: seq<string>, f: string)
    ensures ParsedCounters(files + [f]) == ParsedCounters(files) + [CounterOf(f)]
  {
    var l := ParsedCounters(files + [f]);
    var r := ParsedCounters(files) + [CounterOf(f)];
    forall k | 0 <= k < |l|
      ensures l[k] == r[k]
    {
      assert (files + [f])[k] == if k < |files| then files[k] else f;
    }
  }

  /** One more descriptor file whose counter is the one picked moves the pick up by one. */
  lemma CounterAfterGrows(files: seq<string>, f: string, c: int)
    requires CounterAfter(files) == Some(c)
    requires CounterOf(f) == Some(c)
    ensures CounterAfter(files + [f]) == Some(c + 1)
  {
    var parsed := ParsedCounters(files);
    ParsedCountersAppend(files, f);
    if files == [] {
      assert parsed + [Some(c)] == [] + [Some(c)];
      CollectAppend([], c);
    } else {
      var cs := Collect(parsed).value;
      CollectAppend(parsed, c);
      MaxAppendAbove(cs, c);
    }
  }

  /**
   * Running the generator again after it wrote `descriktor_<c>.json` (and
   * perhaps `etl_pipeline.py`) picks `c + 1`: the counters increase
   * from run to run.
   */
  lemma NextCounterAfterGeneration(names: seq<string>, extra: seq<string>)
    requires NextCounter(names).Some?
    requires forall k :: 0 <= k < |extra| ==> !IsDescriptorFile(extra[k])
    ensures NextCounter(names + [DescriptorFileName(NextCounter(names).value)] + extra)
      == Some(NextCounter(names).value + 1)
  {
    var c := NextCounter(names).value;
    var f := DescriptorFileName(c);
    DescriptorFileNameRoundTrip(c);
    DescriptorFilesAppend(names, f);
    DescriptorFilesAppendOthers(names + [f], extra);
    CounterAfterGrows(DescriptorFiles(names), f, c);
  }

  /**
   * The folder contents after a successful run that picked the fresh `name`:
   * `{}` under `name`, the stub under `etl_pipeline.py` unless that file was
   * already there, and every old file unchanged.
   */
  function Generated(contents: map<string, string>, name: string): (r: map<string, string>)
    requires name !in contents && name != PIPELINE_FILE
    ensures r.Keys == contents.Keys + {name, PIPELINE_FILE}
    ensures r[name] == EMPTY_JSON
    ensures forall n :: n in contents ==> r[n] == contents[n]
    ensures PIPELINE_FILE !in contents ==> r[PIPELINE_FILE] == PIPELINE_STUB
  {
    var written := contents[name := EMPTY_JSON];
    if PIPELINE_FILE in contents then written else written[PIPELINE_FILE := PIPELINE_STUB]
  }

  /** The exception `int(...)` or the `[1]` index raises on a malformed descriptor file name. */
  datatype GeneratorError = MalformedCounter

  /** A folder on disk: whether it exists, its entries in `os.listdir` order, and their contents. */
  class Folder {
    var present: bool
    var names: seq<string>
    var contents: map<string, string>

    ghost predicate Valid()
      reads this
    {
      && (forall k :: 0 <= k < |names| ==> names[k] in contents)
      && (forall n :: n in contents ==> n in names)
      && (forall i, j :: 0 <= i < j < |names| ==> names[i] != names[j])
      && (!present ==> names == [])
    }

    constructor (present: bool, names: seq<string>, contents: map<string, string>)
      requires forall k :: 0 <= k < |names| ==> names[k] in contents
      requires forall n :: n in contents ==> n in names
      requires forall i, j :: 0 <= i < j < |names| ==> names[i] != names[j]
      requires !present ==> names == []
      ensures Valid()
      ensures this.present == present && this.names == names && this.contents == contents
    {
      this.present := present;
      this.names := names;
      this.contents := contents;
    }

    /** `open(path, 'w')` followed by a write: the entry now holds `text`. */
    method Write(name: string, text: string)
      requires Valid() && present
      modifies this
      ensures Valid() && present
      ensures contents == old(contents)[name := text]
      ensures names == if name in old(contents) then old(names) else old(names) + [name]
    {
      if name !in contents {
        names := names + [name];
      }
      contents := contents[name := text];
    }

    /**
     * `generate_example_deskriptor(folder_name)`: create the folder if it is
     * missing, write `{}` to the next free `descriktor_<n>.json`, and write the
     * pipeline stub only when `etl_pipeline.py` is absent. Every file that was
     * there keeps its contents.
     */
    method GenerateExampleDeskriptor() returns (r: Result<string, GeneratorError>)
      requires Valid()
      modifies this
      ensures Valid() && present
      ensures r.Failure? <==> NextCounter(old(names)).None?
      ensures r.Failure? ==> names == old(names) && contents == old(contents)
      ensures r.Success? ==> r.value == DescriptorFileName(NextCounter(old(names)).value)
      ensures r.Success? ==> r.value !in old(contents) && r.value != PIPELINE_FILE
      ensures r.Success? ==> contents == Generated(old(contents), r.value)
      ensures r.Success? ==> contents.Keys == old(contents).Keys + {r.value, PIPELINE_FILE}
      ensures r.Success? ==> contents[r.value] == EMPTY_JSON
      ensures r.Success? ==> forall n :: n in old(contents) ==> contents[n] == old(contents)[n]
      ensures r.Success? && PIPELINE_FILE !in old(contents) ==> contents[PIPELINE_FILE] == PIPELINE_STUB
      ensures r.Success? ==>
        names == old(names) + [r.value] + (if PIPELINE_FILE in old(contents) then [] else [PIPELINE_FILE])
    {
      if !present {
        present := true;
      }
      var next := NextCounter(names);
      if next.None? {
        return Failure(MalformedCounter);
      }
      var name := DescriptorFileName(next.value);
      NewDescriptorIsFresh(names);
      WriteDescriptor(name);
      r := Success(name);
    }

    /**
     * The two writes of a successful run: `{}` to the fresh descriptor, then
     * the pipeline stub unless `etl_pipeline.py` exists.
     */
    method WriteDescriptor(name: string)
      requires Valid() && present
      requires name !in names && name != PIPELINE_FILE
      modifies this
      ensures Valid() && present
      ensures name !in old(contents)
      ensures contents == Generated(old(contents), name)
      ensures names == old(names) + [name] + (if PIPELINE_FILE in old(contents) then [] else [PIPELINE_FILE])
    {
      ghost var before := contents;
      Write(name, EMPTY_JSON);
      if PIPELINE_FILE !in contents {
        Write(PIPELINE_FILE, PIPELINE_STUB);
      }
      assert contents == Generated(before, name);
    }
  }
}
