/**
 * The streamer registry (streamers.txt) as the list of names it holds, and the
 * two list updates of app/twitch_streamlink_proxy.py: `remove_streamers` and
 * `add_streamer`.
 */
module Registry {
  import opened Text

  /** `[s for s in streamers if s not in streamers_to_remove]`. */
  function RemoveStreamers(streamers: seq<string>, toRemove: seq<string>): (kept: seq<string>)
    ensures |kept| <= |streamers|
  {
    if streamers == [] then []
    else
      var rest := RemoveStreamers(streamers[..|streamers| - 1], toRemove);
      var last := streamers[|streamers| - 1];
      if last in toRemove then rest else rest + [last]
  }

  /** Removal keeps exactly the names that are not to be removed. */
  lemma {:induction false} RemovalKeepsExactly(streamers: seq<string>, toRemove: seq<string>)
    ensures forall x :: x in RemoveStreamers(streamers, toRemove) <==> x in streamers && x !in toRemove
    ensures forall x :: x !in toRemove ==>
              multiset(RemoveStreamers(streamers, toRemove))[x] == multiset(streamers)[x]
  {
    if streamers != [] {
      var init := streamers[..|streamers| - 1];
      RemovalKeepsExactly(init, toRemove);
      assert streamers == init + [streamers[|streamers| - 1]];
    }
  }

  /** Removal works name by name, so the kept names stay in their original order. */
  lemma {:induction false} RemovalPreservesOrder(a: seq<string>, b: seq<string>, toRemove: seq<string>)
    ensures RemoveStreamers(a + b, toRemove) == RemoveStreamers(a, toRemove) + RemoveStreamers(b, toRemove)
    decreases |b|
  {
    if b == [] {
      assert a + b == a;
    } else {
      var init, last := b[..|b| - 1], b[|b| - 1];
      RemovalPreservesOrder(a, init, toRemove);
      assert (a + b)[..|a + b| - 1] == a + init;
    }
  }

  /** Removing the same names twice changes nothing more. */
  lemma {:induction false} RemovalIdempotent(streamers: seq<string>, toRemove: seq<string>)
    ensures RemoveStreamers(RemoveStreamers(streamers, toRemove), toRemove) == RemoveStreamers(streamers, toRemove)
  {
    if streamers != [] {
      var init, last := streamers[..|streamers| - 1], streamers[|streamers| - 1];
      RemovalIdempotent(init, toRemove);
      if last !in toRemove {
        RemovalPreservesOrder(RemoveStreamers(init, toRemove), [last], toRemove);
        assert RemoveStreamers([last], toRemove) == RemoveStreamers([], toRemove) + [last];
      }
    }
  }

  /**
   * `add_streamer`: the submitted name, stripped, is appended unless it is
   * empty. The registered names are kept, in order; at most one name is added,
   * and an added name is non-empty, has no white space at its ends, and is the
   * submission with only surrounding white space removed.
   */
  function AddStreamer(streamers: seq<string>, submitted: string): (updated: seq<string>)
    ensures |streamers| <= |updated| <= |streamers| + 1 && updated[..|streamers|] == streamers
    ensures |updated| == |streamers| + 1 <==> exists c :: c in submitted && !IsSpace(c)
    ensures |updated| == |streamers| + 1 ==>
              && updated[|streamers|] != [] && IsStripped(updated[|streamers|])
              && exists i, j :: 0 <= i <= j <= |submitted| && updated[|streamers|] == submitted[i..j]
                   && AllSpace(submitted[..i]) && AllSpace(submitted[j..])
  {
    StripRemovesOnlySpace(submitted);
    var name := Strip(submitted);
    if name != [] then streamers + [name] else streamers
  }

  /** Names as the registry reader produces them: stripped, and (for names added through the form) not empty. */
  ghost predicate WellFormed(streamers: seq<string>) {
    forall i :: 0 <= i < |streamers| ==> streamers[i] != [] && IsStripped(streamers[i])
  }

  /** Adding keeps every name non-empty and stripped. */
  lemma AddKeepsWellFormed(streamers: seq<string>, submitted: string)
    requires WellFormed(streamers)
    ensures WellFormed(AddStreamer(streamers, submitted))
  {
  }

  /** Removing keeps every name non-empty and stripped. */
  lemma RemoveKeepsWellFormed(streamers: seq<string>, toRemove: seq<string>)
    requires WellFormed(streamers)
    ensures WellFormed(RemoveStreamers(streamers, toRemove))
  {
    RemovalKeepsExactly(streamers, toRemove);
    var kept := RemoveStreamers(streamers, toRemove);
    forall i | 0 <= i < |kept|
      ensures kept[i] != [] && IsStripped(kept[i])
    {
      assert kept[i] in streamers;
    }
  }

  /** Removing a name just added gives what removing it from the old registry gives. */
  lemma RemoveUndoesAdd(streamers: seq<string>, submitted: string)
    ensures RemoveStreamers(AddStreamer(streamers, submitted), [Strip(submitted)])
            == RemoveStreamers(streamers, [Strip(submitted)])
  {
    var name := Strip(submitted);
    if name != [] {
      RemovalPreservesOrder(streamers, [name], [name]);
      assert RemoveStreamers([name], [name]) == [];
    }
  }

  // ---------------------------------------------------------------------------
  // The registry file: one name per line, read back with `readlines()` and `strip()`

  /** Where the line holding position `end - 1` starts: just after the previous newline, or at 0. */
  function LineStart(text: string, end: nat): (k: nat)
    requires end <= |text|
    ensures k <= end
    ensures k > 0 ==> text[k - 1] == '\n'
    ensures forall j :: k <= j < end ==> text[j] != '\n'
  {
    if end == 0 || text[end - 1] == '\n' then end else LineStart(text, end - 1)
  }

  /** Python's `f.readlines()`: the lines of the file, each with its newline, the last one possibly without. */
  function ReadLines(text: string): seq<string>
    decreases |text|
  {
    if text == [] then []
    else
      var k := LineStart(text, |text| - 1);
      ReadLines(text[..k]) + [text[k..]]
  }

  /**
   * The lines `readlines()` gives, in order, put together give back the file.
   * Each line is non-empty and holds a newline only as its last character;
   * every line but the last ends with one.
   */
  lemma {:induction false} ReadLinesMeaning(text: string)
    ensures var lines := ReadLines(text);
            && Join(lines, "") == text
            && (lines == [] <==> text == [])
            && (forall i :: 0 <= i < |lines| ==> lines[i] != [] && '\n' !in lines[i][..|lines[i]| - 1])
            && (forall i :: 0 <= i < |lines| - 1 ==> lines[i][|lines[i]| - 1] == '\n')
            && (lines != [] ==> lines[|lines| - 1][|lines[|lines| - 1]| - 1] == text[|text| - 1])
    decreases |text|
  {
    if text != [] {
      var k := LineStart(text, |text| - 1);
      var init, last := ReadLines(text[..k]), text[k..];
      ReadLinesMeaning(text[..k]);
      assert ReadLines(text) == init + [last];
      assert last[..|last| - 1] == text[k..|text| - 1];
      if init != [] {
        JoinSnoc(init, last, "");
        assert text[..k] + last == text;
      }
    }
  }

  /** `[line.strip() for line in lines]`. */
  function StripAll(lines: seq<string>): (names: seq<string>)
    ensures |names| == |lines|
  {
    if lines == [] then [] else StripAll(lines[..|lines| - 1]) + [Strip(lines[|lines| - 1])]
  }

  /** Each name is its line without surrounding white space. */
  lemma {:induction false} StripAllMeaning(lines: seq<string>)
    ensures forall i :: 0 <= i < |lines| ==> StripAll(lines)[i] == Strip(lines[i]) && IsStripped(StripAll(lines)[i])
  {
    if lines != [] {
      StripAllMeaning(lines[..|lines| - 1]);
    }
  }

  /** The registry as every reader of streamers.txt sees it. */
  function ReadRegistry(text: string): seq<string> {
    StripAll(ReadLines(text))
  }

  /** Whatever the file holds, the registry read from it has one stripped name per line, none holding a newline. */
  lemma ReadRegistryMeaning(text: string)
    ensures |ReadRegistry(text)| == |ReadLines(text)|
    ensures forall i :: 0 <= i < |ReadRegistry(text)| ==> IsStripped(ReadRegistry(text)[i]) && '\n' !in ReadRegistry(text)[i]
  {
    var lines := ReadLines(text);
    ReadLinesMeaning(text);
    StripAllMeaning(lines);
    forall i | 0 <= i < |lines| ensures '\n' !in StripAll(lines)[i] {
      StrippedLineHasNoNewline(lines[i]);
    }
  }

  /** A line whose only newline is its last character loses it to `strip()`. */
  lemma StrippedLineHasNoNewline(line: string)
    requires line != [] && '\n' !in line[..|line| - 1]
    ensures '\n' !in Strip(line)
  {
    StripRemovesOnlySpace(line);
    var i, j :| 0 <= i <= j <= |line| && Strip(line) == line[i..j] && AllSpace(line[..i]) && AllSpace(line[j..]);
    var name := Strip(line);
    forall m | 0 <= m < |name| ensures name[m] != '\n' {
      if i + m < |line| - 1 {
        assert name[m] == line[..|line| - 1][i + m];
      } else {
        assert m == |name| - 1;
      }
    }
  }

  /**
   * What `remove_streamers` writes: `"\n".join(streamers) + "\n"`. It always
   * ends with a newline, is a lone newline for no names, and for at least one
   * name is one name per newline-terminated line.
   */
  function WriteRegistryAsWritten(streamers: seq<string>): (text: string)
    ensures text != [] && text[|text| - 1] == '\n'
    ensures streamers == [] ==> text == "\n"
    ensures streamers != [] ==> text == WriteRegistry(streamers)
  {
    if streamers == [] then Join(streamers, "\n") + "\n"
    else
      WritersAgree(streamers);
      Join(streamers, "\n") + "\n"
  }

  /** Each name followed by a newline: the file `add_streamer` builds by appending, and `WriteRegistryAsWritten` for a non-empty list. */
  function WriteRegistry(streamers: seq<string>): string {
    if streamers == [] then [] else WriteRegistry(streamers[..|streamers| - 1]) + streamers[|streamers| - 1] + "\n"
  }

  /** Removing every name a list holds leaves nothing. */
  lemma {:induction false} RemoveCoveredIsEmpty(streamers: seq<string>, toRemove: seq<string>)
    requires forall i :: 0 <= i < |streamers| ==> streamers[i] in toRemove
    ensures RemoveStreamers(streamers, toRemove) == []
  {
    if streamers != [] {
      RemoveCoveredIsEmpty(streamers[..|streamers| - 1], toRemove);
    }
  }

  /** A file holding a lone newline reads back as one empty name. */
  lemma LoneNewlineReadsAsEmptyName()
    ensures ReadRegistry("\n") == [""]
  {
    var text := "\n";
    assert LineStart(text, 0) == 0 && text[..0] == [] && text[0..] == text;
    assert ReadLines(text) == ["\n"];
    assert StripAll(["\n"]) == [Strip("\n")];
    assert LeadingSpaces("\n") == 1;
  }

  /** As written, removing every streamer leaves a file that reads back as one empty name. */
  lemma RemoveAllLeavesEmptyName(streamers: seq<string>)
    ensures RemoveStreamers(streamers, streamers) == []
    ensures ReadRegistry(WriteRegistryAsWritten(RemoveStreamers(streamers, streamers))) == [""]
  {
    RemoveCoveredIsEmpty(streamers, streamers);
    assert WriteRegistryAsWritten([]) == "\n";
    LoneNewlineReadsAsEmptyName();
  }

  /** For a non-empty list, joining with newlines and adding one more is writing one name per line. */
  lemma {:induction false} WritersAgree(streamers: seq<string>)
    requires streamers != []
    ensures Join(streamers, "\n") + "\n" == WriteRegistry(streamers)
  {
    if |streamers| > 1 {
      var init, last := streamers[..|streamers| - 1], streamers[|streamers| - 1];
      WritersAgree(init);
      JoinSnoc(init, last, "\n");
      assert streamers == init + [last];
    } else {
      assert streamers == [] + [streamers[0]];
    }
  }

  lemma {:induction false} JoinSnoc(parts: seq<string>, last: string, sep: string)
    requires parts != []
    ensures Join(parts + [last], sep) == Join(parts, sep) + sep + last
  {
    if |parts| > 1 {
      JoinSnoc(parts[1..], last, sep);
      assert (parts + [last])[1..] == parts[1..] + [last];
    } else {
      assert (parts + [last])[1..] == [last];
    }
  }

  /** A name that fits on one line of the file. */
  ghost predicate OneLine(name: string) {
    '\n' !in name && '\r' !in name
  }

  /** A registry the file can hold: well-formed names, each on one line. */
  ghost predicate Storable(streamers: seq<string>) {
    forall i :: 0 <= i < |streamers| ==> streamers[i] != [] && IsStripped(streamers[i]) && OneLine(streamers[i])
  }

  /** `strip()` only removes characters, so a one-line submission stays on one line. */
  lemma StripKeepsOneLine(submitted: string)
    requires OneLine(submitted)
    ensures OneLine(Strip(submitted))
  {
  }

  /** The corrected writer appends one line per name. */
  lemma WriteRegistrySnoc(streamers: seq<string>, name: string)
    ensures WriteRegistry(streamers + [name]) == WriteRegistry(streamers) + name + "\n"
  {
    var updated := streamers + [name];
    assert updated[..|updated| - 1] == streamers;
  }

  /** Reading a line holding one well-formed name gives the name back. */
  lemma StripLine(name: string)
    requires name != [] && IsStripped(name)
    ensures Strip(name + "\n") == name
  {
    var line := name + "\n";
    assert LeadingSpaces(line) == 0;
    assert line[..|line| - 1] == name;
    assert TrailingSpaces(name) == 0;
    assert TrailingSpaces(line) == 1;
  }

  /** After a newline-terminated file, an appended line starts right where the file ended. */
  lemma AppendedLineStart(text: string, name: string)
    requires text == [] || text[|text| - 1] == '\n'
    requires '\n' !in name
    ensures var full := text + name + "\n"; LineStart(full, |full| - 1) == |text|
  {
    var full := text + name + "\n";
    assert forall j :: |text| <= j < |full| - 1 ==> full[j] == name[j - |text|] && full[j] != '\n';
    var k := LineStart(full, |full| - 1);
    if |text| > 0 {
      assert full[|text| - 1] == '\n';
    }
    assert k >= |text|;
  }

  /** Appending one line to a file that ends with a newline appends one line to what `readlines()` gives. */
  lemma ReadLinesAppend(text: string, name: string)
    requires text == [] || text[|text| - 1] == '\n'
    requires '\n' !in name
    ensures ReadLines(text + name + "\n") == ReadLines(text) + [name + "\n"]
  {
    var full := text + name + "\n";
    AppendedLineStart(text, name);
    assert full[..|text|] == text && full[|text|..] == name + "\n";
  }

  /** The registry file round-trips: what was written as one name per line reads back unchanged. */
  lemma {:induction false} RegistryRoundTrip(streamers: seq<string>)
    requires Storable(streamers)
    ensures ReadRegistry(WriteRegistry(streamers)) == streamers
  {
    if streamers != [] {
      var init, last := streamers[..|streamers| - 1], streamers[|streamers| - 1];
      assert streamers == init + [last];
      assert Storable(init);
      RegistryRoundTrip(init);
      var text := WriteRegistry(init);
      assert text == [] || text[|text| - 1] == '\n';
      ReadLinesAppend(text, last);
      StripLine(last);
      var lines := ReadLines(text) + [last + "\n"];
      assert lines[..|lines| - 1] == ReadLines(text);
      calc {
        ReadRegistry(WriteRegistry(streamers));
        StripAll(ReadLines(text + last + "\n"));
        StripAll(lines);
        StripAll(ReadLines(text)) + [Strip(last + "\n")];
        init + [last];
        streamers;
      }
    }
  }

  /** Appending a submitted name to the file reads back as `AddStreamer` on the registry. */
  lemma AppendMatchesAddStreamer(streamers: seq<string>, submitted: string)
    requires Storable(streamers)
    requires OneLine(submitted)
    ensures var name := Strip(submitted);
            ReadRegistry(if name != [] then WriteRegistry(streamers) + name + "\n" else WriteRegistry(streamers))
              == AddStreamer(streamers, submitted)
  {
    var name := Strip(submitted);
    if name != [] {
      var updated := streamers + [name];
      StripKeepsOneLine(submitted);
      assert Storable(updated);
      RegistryRoundTrip(updated);
      WriteRegistrySnoc(streamers, name);
    } else {
      RegistryRoundTrip(streamers);
    }
  }

  /** With the corrected writer, removing names and reading the file back gives exactly the kept names. */
  lemma RemoveRoundTrips(streamers: seq<string>, toRemove: seq<string>)
    requires Storable(streamers)
    ensures ReadRegistry(WriteRegistry(RemoveStreamers(streamers, toRemove))) == RemoveStreamers(streamers, toRemove)
  {
    var kept := RemoveStreamers(streamers, toRemove);
    RemovalKeepsExactly(streamers, toRemove);
    forall i | 0 <= i < |kept|
      ensures kept[i] != [] && IsStripped(kept[i]) && OneLine(kept[i])
    {
      assert kept[i] in streamers;
    }
    RegistryRoundTrip(kept);
  }
}
