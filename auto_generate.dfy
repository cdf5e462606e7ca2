/**
 * The `go generate` step that turns each global template file into a Go
 * source file holding the file's bytes as a `[]byte` literal: every byte is
 * written in decimal, the numbers are joined with commas, and the result is
 * substituted with the package, file and function names into a fixed Go
 * source text by a `strings.NewReplacer`.
 */
module AutoGenerate {
  import opened Wrappers
  import opened GoStrings

  /** One entry of the generator's file table. */
  datatype GeneratedFile = GeneratedFile(
    fileName: string,
    filePath: string,
    outputFilePath: string,
    outputPackageName: string,
    outputFunctionName: string)

  function Entry(name: string, output: string, funcName: string): GeneratedFile {
    GeneratedFile(name, "../module/cbwebcommon/" + name, "../module/cbwebcommon/" + output,
                  "cbwebcommon", funcName)
  }

  /** The seven templates the generator embeds, in its order. */
  const Files: seq<GeneratedFile> := [
    Entry("master.gohtml", "globalmastertemplate.go", "getGlobalMasterTemplate"),
    Entry("nav.gohtml", "globalnavtemplate.go", "getGlobalNavTemplate"),
    Entry("flash.gohtml", "globalflashtemplate.go", "getGlobalFlashTemplate"),
    Entry("inputtext.gohtml", "globalinputtexttemplate.go", "getGlobalInputTextTemplate"),
    Entry("inputselect.gohtml", "globalinputselecttemplate.go", "getGlobalInputSelectTemplate"),
    Entry("datatable.gohtml", "globaldatatabletemplate.go", "getGlobalDataTableTemplate"),
    Entry("flashtoast.gohtml", "globalflashtoasttemplate.go", "getGlobalFlashToastTemplate")
  ]

  // ------------------------------------------------------------------
  // The byte array literal.
  // ------------------------------------------------------------------

  /** `strconv.Itoa(int(b))` for every byte, in order. */
  function Decimals(fileBytes: Bytes): (r: seq<string>)
    ensures |r| == |fileBytes|
    ensures forall i :: 0 <= i < |r| ==> ParseDecimal(r[i]) == Some(fileBytes[i] as nat)
    ensures forall i :: 0 <= i < |r| ==> Count(r[i], ',') == 0
    ensures forall i :: 0 <= i < |r| ==> |r[i]| >= 1 && (r[i][0] == '0' ==> r[i] == "0")
  {
    var r := seq(|fileBytes|, i requires 0 <= i < |fileBytes| => Decimal(fileBytes[i]));
    forall i | 0 <= i < |r|
      ensures ParseDecimal(r[i]) == Some(fileBytes[i] as nat) && Count(r[i], ',') == 0
    {
      ParseDecimalOfDecimal(fileBytes[i]);
      DecimalHasNoComma(fileBytes[i]);
    }
    r
  }

  /** The loop that builds `bytesString`, one decimal per byte. */
  method EncodeBytes(fileBytes: Bytes) returns (bytesString: seq<string>)
    ensures bytesString == Decimals(fileBytes)
  {
    bytesString := [];
    var i := 0;
    while i < |fileBytes|
      invariant 0 <= i <= |fileBytes|
      invariant bytesString == Decimals(fileBytes[..i])
    {
      assert fileBytes[..i + 1] == fileBytes[..i] + [fileBytes[i]];
      bytesString := bytesString + [Decimal(fileBytes[i])];
      i := i + 1;
    }
    assert fileBytes[..i] == fileBytes;
  }

  /** `strings.Join(bytesString, ",")`. */
  function ByteArrayString(fileBytes: Bytes): string {
    Join(Decimals(fileBytes), ',')
  }

  /**
   * The literal holds one comma between neighbouring numbers, and reading it
   * back (splitting on commas, parsing each number) yields the file's bytes.
   * An empty file gives an empty literal.
   */
  lemma ByteArrayRoundTrip(fileBytes: Bytes)
    ensures fileBytes == [] ==> ByteArrayString(fileBytes) == ""
    ensures fileBytes != [] ==> Count(ByteArrayString(fileBytes), ',') == |fileBytes| - 1
    ensures fileBytes != [] ==> |Split(ByteArrayString(fileBytes), ',')| == |fileBytes|
    ensures fileBytes != [] ==> forall i :: 0 <= i < |fileBytes| ==>
      ParseDecimal(Split(ByteArrayString(fileBytes), ',')[i]) == Some(fileBytes[i] as nat)
  {
    var parts := Decimals(fileBytes);
    JoinLength(parts, ',');
    if fileBytes != [] {
      SplitJoin(parts, ',');
    }
  }

  // ------------------------------------------------------------------
  // The generated Go source.
  // ------------------------------------------------------------------

  const PackageName := "{packageName}"
  const FileName := "{fileName}"
  const FunctionName := "{functionName}"
  const ByteArray := "{byteArrayString}"

  /**
   * The text between the placeholders of the source template, in order.
   * The longer pieces are written in parts only to keep them short.
   */
  const Header := "package "
  const DoNotEdit := "\n\n// DO NOT EDIT: " + "This is autogenerated from "
  const Regenerate := "\n// run go generate in the " + "cb_auto_generate directory " + "to regenerate this\nfunc "
  const Signature := "() []byte "
  const Return := "\n\treturn []byte"
  const Trailer := "}\n}\n"

  /** The format handed to `stringReplacer`. */
  const Template: string :=
    Header + (PackageName + (DoNotEdit + (FileName + (Regenerate + (FunctionName + (Signature
    + ("{" + (Return + ("{" + (ByteArray + Trailer))))))))))

  /** No `{` occurs in the template's text outside the placeholders and the two braces. */
  lemma LiteralsHaveNoBrace()
    ensures '{' !in Header && '{' !in DoNotEdit && '{' !in Regenerate
    ensures '{' !in Signature && '{' !in Return && '{' !in Trailer
  {
    DoNotEditHasNoBrace();
    RegenerateHasNoBrace();
  }

  lemma DoNotEditHasNoBrace()
    ensures '{' !in DoNotEdit
  {
    assert '{' !in "\n\n// DO NOT EDIT: ";
    assert '{' !in "This is autogenerated from ";
  }

  lemma RegenerateHasNoBrace()
    ensures '{' !in Regenerate
  {
    assert '{' !in "\n// run go generate in the ";
    assert '{' !in "cb_auto_generate directory ";
    assert '{' !in "to regenerate this\nfunc ";
  }

  /** The replacer's `old, new` arguments, in the order they are given. */
  function Pairs(file: GeneratedFile, byteArrayString: string): (pairs: seq<Replacement>)
    ensures NonEmptyOlds(pairs)
  {
    [Replacement(PackageName, file.outputPackageName),
     Replacement(FileName, file.fileName),
     Replacement(FunctionName, file.outputFunctionName),
     Replacement(ByteArray, byteArrayString)]
  }

  /** The Go source written for `file` whose bytes are `fileBytes`. */
  function Source(file: GeneratedFile, fileBytes: Bytes): string {
    Replace(Template, Pairs(file, ByteArrayString(fileBytes)))
  }

  /**
   * The generated source is the template with each placeholder replaced by
   * its value exactly once; the braces of the Go function body and of the
   * `[]byte{...}` literal are kept, and values are not rescanned, so any
   * name (even one holding a placeholder) is copied as it is.
   */
  lemma SourceShape(file: GeneratedFile, fileBytes: Bytes)
    ensures Source(file, fileBytes) ==
      Header + (file.outputPackageName + (DoNotEdit + (file.fileName + (Regenerate
      + (file.outputFunctionName + (Signature + ("{" + (Return + ("{"
      + (ByteArrayString(fileBytes) + Trailer))))))))))
  {
    var pairs := Pairs(file, ByteArrayString(fileBytes));
    LiteralsHaveNoBrace();
    var t5 := ByteArray + Trailer;
    var t4 := Return + ("{" + t5);
    var t3 := Signature + ("{" + t4);
    var t2 := Regenerate + (FunctionName + t3);
    var t1 := DoNotEdit + (FileName + t2);

    ReplaceSkipsLiteral(Trailer, "", '{', pairs);
    assert Trailer + "" == Trailer;
    PlaceholderMatches(3, Trailer, pairs);
    var r5 := ByteArrayString(fileBytes) + Trailer;
    assert Replace(t5, pairs) == r5;
    LiteralThenBrace(Return, t5, pairs);
    LiteralThenBrace(Signature, t4, pairs);
    LiteralThenPlaceholder(Regenerate, 2, t3, pairs);
    LiteralThenPlaceholder(DoNotEdit, 1, t2, pairs);
    LiteralThenPlaceholder(Header, 0, t1, pairs);
    assert Template == Header + (PackageName + t1);
  }

  /** The four placeholders, in the order the generator passes them. */
  predicate Placeholders(pairs: seq<Replacement>) {
    |pairs| == 4
    && pairs[0].pattern == PackageName && pairs[1].pattern == FileName
    && pairs[2].pattern == FunctionName && pairs[3].pattern == ByteArray
  }

  /** Brace-free text is copied, and the placeholder after it is replaced. */
  lemma LiteralThenPlaceholder(lit: string, k: nat, s: string, pairs: seq<Replacement>)
    requires Placeholders(pairs) && k < 4 && '{' !in lit
    ensures NonEmptyOlds(pairs)
    ensures Replace(lit + (pairs[k].pattern + s), pairs) == lit + (pairs[k].text + Replace(s, pairs))
  {
    ReplaceSkipsLiteral(lit, pairs[k].pattern + s, '{', pairs);
    PlaceholderMatches(k, s, pairs);
  }

  /** Brace-free text is copied, and so is a `{` after it that starts no placeholder. */
  lemma LiteralThenBrace(lit: string, s: string, pairs: seq<Replacement>)
    requires Placeholders(pairs) && '{' !in lit
    requires |s| >= 1 && (s[0] == '\n' || s[0] == '{')
    ensures NonEmptyOlds(pairs)
    ensures Replace(lit + ("{" + s), pairs) == lit + ("{" + Replace(s, pairs))
  {
    ReplaceSkipsLiteral(lit, "{" + s, '{', pairs);
    BraceIsCopied("{" + s, pairs);
    assert "{" + s == ['{'] + s;
    ReplaceCopies('{', s, pairs);
  }

  /** Each placeholder is chosen where it occurs in the template. */
  lemma PlaceholderMatches(k: nat, s: string, pairs: seq<Replacement>)
    requires Placeholders(pairs) && k < 4
    ensures NonEmptyOlds(pairs)
    ensures Replace(pairs[k].pattern + s, pairs) == pairs[k].text + Replace(s, pairs)
  {
    var t := pairs[k].pattern + s;
    assert t[..|pairs[k].pattern|] == pairs[k].pattern;
    forall j | 0 <= j < k ensures !HasPrefix(t, pairs[j].pattern) {
      var p := pairs[j].pattern;
      var q := pairs[k].pattern;
      assert p[1] != q[1] || p[2] != q[2];
      assert t[1] == q[1] && t[2] == q[2];
      if |p| <= |t| {
        assert t[..|p|][1] == t[1] && t[..|p|][2] == t[2];
      }
    }
    ReplaceSubstitutes(k, s, pairs);
  }

  /** A `{` that starts no placeholder, because the next character is `\n` or `{`. */
  lemma BraceIsCopied(s: string, pairs: seq<Replacement>)
    requires Placeholders(pairs)
    requires |s| >= 2 && s[0] == '{' && (s[1] == '\n' || s[1] == '{')
    ensures PairAt(s, pairs) == None
  {
    forall j | 0 <= j < 4 ensures !HasPrefix(s, pairs[j].pattern) {
      var p := pairs[j].pattern;
      assert 'a' <= p[1] <= 'z';
      if |p| <= |s| {
        assert s[..|p|][1] == s[1];
      }
    }
  }

  // ------------------------------------------------------------------
  // The generator's main loop.
  // ------------------------------------------------------------------

  /** A file the generator wrote: its path and its Go source. */
  datatype Written = Written(path: string, source: string)

  /** What the generator writes for `file` when it reads `fileBytes`. */
  function Output(file: GeneratedFile, fileBytes: Bytes): (w: Written)
    ensures w.path == file.outputFilePath
    ensures w.source ==
      Header + (file.outputPackageName + (DoNotEdit + (file.fileName + (Regenerate
      + (file.outputFunctionName + (Signature + ("{" + (Return + ("{"
      + (ByteArrayString(fileBytes) + Trailer))))))))))
  {
    SourceShape(file, fileBytes);
    Written(file.outputFilePath, Source(file, fileBytes))
  }

  /**
   * Processes the table in order. The file system is a pair of oracles:
   * `readFile` gives a file's bytes or `None` when reading fails, and
   * `writeFails` says whether writing a path fails. The first failure of
   * either kind panics, which ends the run: `failedAt` is its index.
   */
  method Generate(files: seq<GeneratedFile>, readFile: string -> Option<Bytes>,
                  writeFails: string -> bool)
    returns (written: seq<Written>, failedAt: Option<nat>)
    ensures failedAt.None? ==> |written| == |files|
    ensures failedAt.Some? ==> failedAt.value < |files| && |written| == failedAt.value
    ensures failedAt.Some? ==>
      readFile(files[failedAt.value].filePath).None?
      || writeFails(files[failedAt.value].outputFilePath)
    ensures forall i :: 0 <= i < |written| ==>
      readFile(files[i].filePath).Some? && !writeFails(files[i].outputFilePath)
      && written[i] == Output(files[i], readFile(files[i].filePath).value)
  {
    written := [];
    var i := 0;
    while i < |files|
      invariant 0 <= i <= |files| && |written| == i
      invariant forall j :: 0 <= j < i ==>
        readFile(files[j].filePath).Some? && !writeFails(files[j].outputFilePath)
        && written[j] == Output(files[j], readFile(files[j].filePath).value)
    {
      var file := files[i];
      var read := readFile(file.filePath);
      if read.None? {
        return written, Some(i);
      }
      var bytesString := EncodeBytes(read.value);
      var source := Replace(Template, Pairs(file, Join(bytesString, ',')));
      if writeFails(file.outputFilePath) {
        return written, Some(i);
      }
      written := written + [Written(file.outputFilePath, source)];
      i := i + 1;
    }
    failedAt := None;
  }
}
