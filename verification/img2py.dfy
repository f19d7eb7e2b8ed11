/** pyslipqt/examples/graphics/img2py.py: turns the base64 text of an image
    into a Python module whose get_<name>_image() decodes it. The base64
    text produced by the shell command is an input here; the file system is
    the set of paths that exist. */
module Img2Py {
  import opened PyText

  /** Characters of base64 text per emitted source line. */
  const LineLength := 60

  /** The fixed lines that open the generated module. */
  function Header(name: string): seq<string> {
    ["import base64",
     "",
     "def get_" + name + "_image():",
     "    \"\"\"Generate '" + name + "' image from embedded data.\"\"\"",
     "",
     "    return base64.b64decode(",
     ""]
  }

  /** The successive data[:LineLength] slices the writer loop takes. */
  function Chunks(data: string): seq<string>
    decreases |data|
  {
    if data == [] then []
    else
      var n := if |data| < LineLength then |data| else LineLength;
      [data[..n]] + Chunks(data[n..])
  }

  /** One chunk as a source line: eight spaces and the chunk in quotes. */
  function Quote(chunk: string): string {
    "        \"" + chunk + "\""
  }

  function QuoteAll(chunks: seq<string>): seq<string>
  {
    seq(|chunks|, i requires 0 <= i < |chunks| => Quote(chunks[i]))
  }

  /** The text of the generated module for stripped base64 text data. */
  function Source(name: string, data: string): string {
    Join("\n", Header(name)) + Join("\n", QuoteAll(Chunks(data))) + ")\n"
  }

  /** The chunks put back together are the data. */
  lemma {:induction false} ChunksRejoin(data: string)
    ensures Join("", Chunks(data)) == data
    decreases |data|
  {
    if data != [] {
      var n := if |data| < LineLength then |data| else LineLength;
      ChunksRejoin(data[n..]);
      assert Chunks(data)[1..] == Chunks(data[n..]);
      assert data[..n] + data[n..] == data;
    }
  }

  /** No chunk is empty or longer than a line, every chunk but the last is
      a full line, and there are ceil(|data| / LineLength) of them. */
  lemma {:induction false} ChunkSizes(data: string)
    ensures forall i :: 0 <= i < |Chunks(data)| ==> 0 < |Chunks(data)[i]| <= LineLength
    ensures forall i :: 0 <= i < |Chunks(data)| - 1 ==> |Chunks(data)[i]| == LineLength
    ensures |Chunks(data)| == (|data| + LineLength - 1) / LineLength
    decreases |data|
  {
    if data != [] {
      var n := if |data| < LineLength then |data| else LineLength;
      var cs := Chunks(data);
      var tail := Chunks(data[n..]);
      ChunkSizes(data[n..]);
      assert cs == [data[..n]] + tail;
      forall i | 0 < i < |cs|
        ensures 0 < |cs[i]| <= LineLength
        ensures i < |cs| - 1 ==> |cs[i]| == LineLength
      {
        assert cs[i] == tail[i - 1];
      }
      if n < LineLength {
        assert tail == [];
      }
    }
  }

  /** What the writer loop has written after the header once the chunks
      in done are out: their quoted lines, and a newline when more data
      follows. */
  function Emitted(done: seq<string>, more: bool): string {
    Join("\n", QuoteAll(done)) + (if done != [] && more then "\n" else "")
  }

  lemma {:induction false} EmittedStep(done: seq<string>, line: string, more: bool)
    ensures Emitted(done, true) + Quote(line) + (if more then "\n" else "") == Emitted(done + [line], more)
  {
    JoinSnoc("\n", QuoteAll(done), Quote(line));
    assert QuoteAll(done + [line]) == QuoteAll(done) + [Quote(line)];
  }

  /** The writer loop: each data[:LineLength] chunk quoted on its own
      line, with a newline after every chunk but the last. */
  method WriteChunks(data: string) returns (out: string)
    ensures out == Join("\n", QuoteAll(Chunks(data)))
  {
    out := "";
    var rest := data;
    ghost var done: seq<string> := [];
    while rest != []
      invariant Chunks(data) == done + Chunks(rest)
      invariant out == Emitted(done, rest != [])
      decreases |rest|
    {
      var n := if |rest| < LineLength then |rest| else LineLength;
      var line := rest[..n];
      assert Chunks(rest) == [line] + Chunks(rest[n..]);
      rest := rest[n..];
      EmittedStep(done, line, rest != []);
      out := out + Quote(line);
      if rest != [] {
        out := out + "\n";
      }
      done := done + [line];
    }
    assert done == Chunks(data) by {
      assert Chunks(rest) == [];
    }
  }

  /** What img2py() writes: the header lines joined by newlines, the
      quoted chunks, then the closing parenthesis. */
  method WriteSource(name: string, data: string) returns (out: string)
    ensures out == Source(name, data)
  {
    out := Join("\n", Header(name));
    var body := WriteChunks(data);
    out := out + body + ")\n";
  }

  /** The joined header opens with the import, a blank line and the
      def line. */
  lemma HeaderOpens(name: string)
    ensures Join("\n", Header(name)) ==
      "import base64\n\ndef get_" + name + "_image():\n" + Join("\n", Header(name)[3..])
  {
    var h := Header(name);
    var rest := Join("\n", h[3..]);
    assert Join("\n", h[2..]) == h[2] + "\n" + rest;
    assert Join("\n", h[1..]) == "" + "\n" + Join("\n", h[2..]);
    assert Join("\n", h) == "import base64" + "\n" + Join("\n", h[1..]);
  }

  /** The module defines get_<name>_image() on its third line and ends by
      closing the b64decode call. */
  lemma SourceShape(name: string, data: string)
    ensures var s := Source(name, data);
      var def := "import base64\n\ndef get_" + name + "_image():\n";
      |def| <= |s| && s[..|def|] == def && s[|s| - 2..] == ")\n"
  {
    HeaderOpens(name);
    var def := "import base64\n\ndef get_" + name + "_image():\n";
    var middle := Join("\n", Header(name)[3..]) + Join("\n", QuoteAll(Chunks(data)));
    var s := Source(name, data);
    assert s == def + middle + ")\n";
    assert s == def + (middle + ")\n");
    assert s == (def + middle) + ")\n";
  }

  /** What one run leaves behind: an exit status, or a written module
      (followed by exit status 0). */
  datatype Outcome = Exit(code: int) | Wrote(path: string, text: string)

  /** img2py(name, in_file, out_file) given the paths that exist and the
      base64 text the encoder produces for in_file. */
  method Img2Py(name: string, inFile: string, outFile: string, existing: set<string>, base64: string)
    returns (r: Outcome)
    ensures inFile !in existing ==> r == Exit(1)
    ensures inFile in existing && outFile in existing ==> r == Exit(1)
    ensures inFile in existing && outFile !in existing ==>
      r == Wrote(outFile, Source(name, Strip(base64)))
  {
    if inFile !in existing {
      return Exit(1);
    }
    if outFile in existing {
      return Exit(1);
    }
    var text := WriteSource(name, Strip(base64));
    return Wrote(outFile, text);
  }

  predicate IsHelp(opt: string) { opt == "-h" || opt == "--help" }

  predicate IsName(opt: string) { opt == "-n" || opt == "--name" }

  /** The internal name left by the options loop: the value of the last -n
      or --name, else 'Name'. */
  function NameOption(opts: seq<(string, string)>, name: string): string
    decreases |opts|
  {
    if opts == [] then name
    else NameOption(opts[1..], if IsName(opts[0].0) then opts[0].1 else name)
  }

  /** NameOption is the value of the last -n or --name option, which
      overrides every earlier one, or the starting name when there is
      none. */
  lemma {:induction false} NameOptionIsLast(opts: seq<(string, string)>, name: string)
    ensures (forall j :: 0 <= j < |opts| ==> !IsName(opts[j].0)) ==> NameOption(opts, name) == name
    ensures (exists j :: 0 <= j < |opts| && IsName(opts[j].0)) ==>
      exists j :: (0 <= j < |opts| && IsName(opts[j].0) && NameOption(opts, name) == opts[j].1 &&
        forall k :: j < k < |opts| ==> !IsName(opts[k].0))
    decreases |opts|
  {
    if opts != [] {
      var tail := opts[1..];
      var name' := if IsName(opts[0].0) then opts[0].1 else name;
      NameOptionIsLast(tail, name');
      if exists j :: 0 <= j < |tail| && IsName(tail[j].0) {
        var j :| 0 <= j < |tail| && IsName(tail[j].0) && NameOption(tail, name') == tail[j].1 &&
          forall k :: j < k < |tail| ==> !IsName(tail[k].0);
        assert opts[j + 1] == tail[j];
        forall k | j + 1 < k < |opts|
          ensures !IsName(opts[k].0)
        {
          assert opts[k] == tail[k - 1];
        }
      } else {
        forall k | 0 < k < |opts|
          ensures !IsName(opts[k].0)
        {
          assert opts[k] == tail[k - 1];
        }
      }
    }
  }

  /** The command line: a getopt error or a positional count other than
      two exits 1 before any option is looked at; a help option anywhere
      exits 0; otherwise img2py runs with the chosen name. */
  method Command(parsed: Getopt, existing: set<string>, base64: string) returns (r: Outcome)
    ensures parsed.GetoptError? ==> r == Exit(1)
    ensures parsed.Parsed? && |parsed.args| != 2 ==> r == Exit(1)
    ensures parsed.Parsed? && |parsed.args| == 2 && (exists i :: 0 <= i < |parsed.opts| && IsHelp(parsed.opts[i].0)) ==>
      r == Exit(0)
    ensures parsed.Parsed? && |parsed.args| == 2 && (forall i :: 0 <= i < |parsed.opts| ==> !IsHelp(parsed.opts[i].0)) ==>
      var inFile := parsed.args[0];
      var outFile := parsed.args[1];
      var name := NameOption(parsed.opts, "Name");
      (inFile !in existing || outFile in existing ==> r == Exit(1)) &&
      (inFile in existing && outFile !in existing ==> r == Wrote(outFile, Source(name, Strip(base64))))
  {
    if parsed.GetoptError? {
      return Exit(1);
    }
    var opts, args := parsed.opts, parsed.args;
    if |args| != 2 {
      return Exit(1);
    }
    var name := "Name";
    var i := 0;
    while i < |opts|
      invariant 0 <= i <= |opts|
      invariant forall j :: 0 <= j < i ==> !IsHelp(opts[j].0)
      invariant NameOption(opts[i..], name) == NameOption(opts, "Name")
    {
      var (opt, param) := opts[i];
      assert opts[i..][1..] == opts[i + 1..];
      if IsHelp(opt) {
        return Exit(0);
      } else if IsName(opt) {
        name := param;
      }
      i := i + 1;
    }
    assert opts[i..] == [];
    r := Img2Py(name, args[0], args[1], existing, base64);
  }
}
