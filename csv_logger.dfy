/** `CSVLogger::logEvent` (src/CSVLogger.cpp): one line per event appended
    to the CSV file, with the pre-trigger files in one column, each
    followed by `;`.  The file is an object holding its text; whether it
    can be opened for appending is an input. */
module CsvLogger {
  import opened Common

  /** The log file's text. */
  class TextFile {
    var contents: string

    constructor(contents: string)
      ensures this.contents == contents
    {
      this.contents := contents;
    }
  }

  /** The pre-trigger column: every file name followed by `;`. */
  function PreFilesField(preFiles: seq<string>): string
  {
    if preFiles == [] then []
    else PreFilesField(preFiles[..|preFiles| - 1]) + preFiles[|preFiles| - 1] + ";"
  }

  /** The line `logEvent` writes; `speed` is printed in decimal by `<<`. */
  function Row(timestamp: string, triggerType: string, warningType: string, speed: int,
               preFiles: seq<string>, postFile: string): string
  {
    timestamp + "," + triggerType + "," + warningType + "," + IntToString(speed) + ","
      + PreFilesField(preFiles) + "," + postFile + "\n"
  }

  /** `logEvent`: the pieces streamed into the file form one row.  When the
      file opens, exactly that row is appended and the
      earlier text is kept; otherwise nothing happens and nothing is
      reported. */
  method LogEvent(csv: TextFile, canOpen: bool, timestamp: string, triggerType: string, warningType: string,
                  speed: int, preFiles: seq<string>, postFile: string)
    modifies csv
    ensures canOpen ==> csv.contents == old(csv.contents) + Row(timestamp, triggerType, warningType, speed, preFiles, postFile)
    ensures !canOpen ==> csv.contents == old(csv.contents)
  {
    if !canOpen {
      return;
    }
    var line := timestamp + "," + triggerType + "," + warningType + "," + IntToString(speed) + ",";
    ghost var head := line;
    var i := 0;
    while i < |preFiles|
      invariant 0 <= i <= |preFiles|
      invariant line == head + PreFilesField(preFiles[..i])
      invariant csv.contents == old(csv.contents)
    {
      PreFilesFieldStep(preFiles, i);
      AppendItem(head, PreFilesField(preFiles[..i]), preFiles[i]);
      line := line + preFiles[i] + ";";
      i := i + 1;
    }
    assert preFiles[..i] == preFiles;
    line := line + "," + postFile + "\n";
    assert line == Row(timestamp, triggerType, warningType, speed, preFiles, postFile);
    csv.contents := csv.contents + line;
  }

  lemma PreFilesFieldStep(preFiles: seq<string>, i: nat)
    requires i < |preFiles|
    ensures PreFilesField(preFiles[..i + 1]) == PreFilesField(preFiles[..i]) + preFiles[i] + ";"
  {
    assert preFiles[..i + 1][..i] == preFiles[..i];
  }

  lemma AppendItem(head: string, field: string, item: string)
    ensures head + field + item + ";" == head + (field + item + ";")
  {
  }

  // ---------------------------------------------------------------------
  // Properties
  // ---------------------------------------------------------------------

  /** With no pre-trigger files the row has two adjacent commas. */
  lemma EmptyPreFilesRow(timestamp: string, triggerType: string, warningType: string, speed: int, postFile: string)
    ensures Row(timestamp, triggerType, warningType, speed, [], postFile)
         == timestamp + "," + triggerType + "," + warningType + "," + IntToString(speed) + ",," + postFile + "\n"
  {
  }

  /** The pre-trigger column is the file names joined by `;` with one more
      `;` at the end. */
  lemma {:induction false} PreFilesFieldIsJoin(preFiles: seq<string>)
    ensures PreFilesField(preFiles) == Join(preFiles + [""], ';')
  {
    if preFiles != [] {
      var n := |preFiles|;
      var init := preFiles[..n - 1];
      PreFilesFieldIsJoin(init);
      JoinAppend(init, preFiles[n - 1]);
      assert init + [preFiles[n - 1]] == preFiles;
    }
  }

  /** Appending `x` and an empty piece to pieces ending in an empty piece. */
  lemma {:induction false} JoinAppend(parts: seq<string>, x: string)
    ensures Join(parts + [x] + [""], ';') == Join(parts + [""], ';') + x + ";"
  {
    if parts == [] {
      assert [x] + [""] == [x, ""];
    } else {
      var rest := parts[1..];
      assert (parts + [x] + [""])[1..] == rest + [x] + [""];
      assert (parts + [""])[1..] == rest + [""];
      JoinAppend(rest, x);
    }
  }

  lemma IntToStringHasNoSeparator(i: int, c: char)
    requires c != '-' && !IsDigit(c)
    ensures c !in IntToString(i)
  {
    var s := IntToString(i);
    var digits := NatToString(if i < 0 then -i else i);
    forall k | 0 <= k < |digits| ensures digits[k] != c {
      assert IsDigit(digits[k]);
    }
    assert s == digits || s == "-" + digits;
  }

  /** A plain field: no comma, semicolon or line break. */
  predicate Plain(f: string)
  {
    ',' !in f && ';' !in f && '\n' !in f
  }

  /** The row is its six fields joined by `,`, then a line break. */
  lemma RowIsJoinedFields(timestamp: string, triggerType: string, warningType: string, speed: int,
                          preFiles: seq<string>, postFile: string)
    ensures Row(timestamp, triggerType, warningType, speed, preFiles, postFile)
         == Join([timestamp, triggerType, warningType, IntToString(speed), PreFilesField(preFiles), postFile], ',') + "\n"
  {
    var sp, pre := IntToString(speed), PreFilesField(preFiles);
    var f := [timestamp, triggerType, warningType, sp, pre, postFile];
    var j4 := pre + "," + postFile;
    var j3 := sp + "," + j4;
    var j2 := warningType + "," + j3;
    var j1 := triggerType + "," + j2;
    var a3 := timestamp + "," + triggerType + "," + warningType + "," + sp;
    var a2 := timestamp + "," + triggerType + "," + warningType;
    var a1 := timestamp + "," + triggerType;
    assert a3 + "," + pre + "," + postFile == timestamp + "," + j1 by {
      Regroup(a3, pre, postFile);
      Regroup(a2, sp, j4);
      Regroup(a1, warningType, j3);
      Regroup(timestamp, triggerType, j2);
    }
    assert Join(f, ',') == timestamp + "," + j1 by {
      assert Join(f[4..], ',') == j4 by { JoinStep(f, 4, ','); assert f[5..] == [postFile]; }
      assert Join(f[3..], ',') == j3 by { JoinStep(f, 3, ','); }
      assert Join(f[2..], ',') == j2 by { JoinStep(f, 2, ','); }
      assert Join(f[1..], ',') == j1 by { JoinStep(f, 1, ','); }
      JoinStep(f, 0, ',');
      assert f[0..] == f;
    }
  }

  /** Moving the brackets of `a,b,c` to the right. */
  lemma Regroup(a: string, b: string, c: string)
    ensures a + "," + b + "," + c == a + "," + (b + "," + c)
  {
  }

  lemma JoinStep(parts: seq<string>, k: nat, d: char)
    requires k + 1 < |parts|
    ensures Join(parts[k..], d) == parts[k] + [d] + Join(parts[k + 1..], d)
  {
    assert parts[k..][1..] == parts[k + 1..];
  }

  /** Reading a row back: when no field holds `,`, `;` or a line break, the
      row is one line that splits on `,` into the six fields, and its fifth
      field splits on `;` into the pre-trigger files followed by one empty
      piece. */
  lemma RowRoundTrip(timestamp: string, triggerType: string, warningType: string, speed: int,
                     preFiles: seq<string>, postFile: string)
    requires Plain(timestamp) && Plain(triggerType) && Plain(warningType) && Plain(postFile)
    requires forall k :: 0 <= k < |preFiles| ==> Plain(preFiles[k])
    ensures var row := Row(timestamp, triggerType, warningType, speed, preFiles, postFile);
      var line := row[..|row| - 1];
      row[|row| - 1] == '\n' && '\n' !in line &&
      Split(line, ',') == [timestamp, triggerType, warningType, IntToString(speed), PreFilesField(preFiles), postFile] &&
      Split(PreFilesField(preFiles), ';') == preFiles + [""]
  {
    var pre := PreFilesField(preFiles);
    var sp := IntToString(speed);
    PreFilesFieldPlain(preFiles);
    IntToStringHasNoSeparator(speed, ',');
    IntToStringHasNoSeparator(speed, '\n');
    LineSplits(timestamp, triggerType, warningType, sp, pre, postFile);
    RowIsJoinedFields(timestamp, triggerType, warningType, speed, preFiles, postFile);
    LineBreakAtEnd(Join([timestamp, triggerType, warningType, sp, pre, postFile], ','));
  }

  lemma PreFilesFieldPlain(preFiles: seq<string>)
    requires forall k :: 0 <= k < |preFiles| ==> Plain(preFiles[k])
    ensures var pre := PreFilesField(preFiles);
      Split(pre, ';') == preFiles + [""] && ',' !in pre && '\n' !in pre
  {
    var pieces := preFiles + [""];
    PreFilesFieldIsJoin(preFiles);
    assert forall k :: 0 <= k < |pieces| ==> Plain(pieces[k]);
    SplitJoin(pieces, ';');
    JoinOfPlain(pieces, ';');
  }

  lemma LineSplits(f0: string, f1: string, f2: string, f3: string, f4: string, f5: string)
    requires ',' !in f0 && ',' !in f1 && ',' !in f2 && ',' !in f3 && ',' !in f4 && ',' !in f5
    requires '\n' !in f0 && '\n' !in f1 && '\n' !in f2 && '\n' !in f3 && '\n' !in f4 && '\n' !in f5
    ensures var fields := [f0, f1, f2, f3, f4, f5];
      Split(Join(fields, ','), ',') == fields && '\n' !in Join(fields, ',')
  {
    var fields := [f0, f1, f2, f3, f4, f5];
    JoinOfPlain(fields, ',');
    SplitJoin(fields, ',');
  }

  lemma LineBreakAtEnd(line: string)
    ensures var row := line + "\n"; row[|row| - 1] == '\n' && row[..|row| - 1] == line
  {
  }

  /** Joining plain pieces with `;` or `,` gives text without `,` (when
      joined by `;`) and without line breaks. */
  lemma {:induction false} JoinOfPlain(parts: seq<string>, d: char)
    requires d == ';' || d == ','
    requires forall k :: 0 <= k < |parts| ==> '\n' !in parts[k] && (d == ';' ==> ',' !in parts[k])
    ensures '\n' !in Join(parts, d)
    ensures d == ';' ==> ',' !in Join(parts, d)
  {
    if |parts| > 1 {
      JoinOfPlain(parts[1..], d);
    }
  }
}
