/** `Main`: strip an optional `-enc <name>` prefix, then choose a command
    by its first argument and the number of arguments. */
module Cli {
  import opened Lines

  /** `char.ToLower` restricted to ASCII letters. */
  function ToLowerChar(c: char): char {
    if 'A' <= c <= 'Z' then (c as int + 32) as char else c
  }

  function ToLower(s: string): (r: string)
    ensures |r| == |s|
    ensures forall k :: 0 <= k < |s| ==> r[k] == ToLowerChar(s[k])
  {
    if s == [] then [] else [ToLowerChar(s[0])] + ToLower(s[1..])
  }

  /** Lower-casing twice is lower-casing once. */
  lemma ToLowerIdempotent(s: string)
    ensures ToLower(ToLower(s)) == ToLower(s)
  {
    var t := ToLower(s);
    assert forall k :: 0 <= k < |t| ==> ToLowerChar(t[k]) == t[k];
  }

  /** `string.Split(char)`: the pieces between the separators, empty
      pieces included. */
  function SplitOn(s: string, sep: char): (parts: seq<string>)
    ensures |parts| >= 1
    ensures |parts| >= 2 <==> sep in s
  {
    if s == [] then [""]
    else
      var rest := SplitOn(s[1..], sep);
      if s[0] == sep then [""] + rest else [[s[0]] + rest[0]] + rest[1..]
  }

  /** `string.Join`: the pieces with the separator between them. */
  function Join(parts: seq<string>, sep: char): string
    requires |parts| >= 1
  {
    if |parts| == 1 then parts[0] else parts[0] + [sep] + Join(parts[1..], sep)
  }

  /** Splitting loses nothing: joining the pieces gives the text back. */
  lemma {:induction false} SplitOnJoin(s: string, sep: char)
    ensures Join(SplitOn(s, sep), sep) == s
  {
    if s != [] {
      var rest := SplitOn(s[1..], sep);
      SplitOnJoin(s[1..], sep);
      if s[0] == sep {
        assert ([""] + rest)[1..] == rest;
      } else {
        var parts := [[s[0]] + rest[0]] + rest[1..];
        if |rest| > 1 {
          assert parts[1..] == rest[1..];
          assert Join(rest, sep) == rest[0] + [sep] + Join(rest[1..], sep);
        }
        assert s == [s[0]] + s[1..];
      }
    }
  }

  /** No piece holds the separator. */
  lemma {:induction false} SplitOnPieces(s: string, sep: char)
    ensures forall k :: 0 <= k < |SplitOn(s, sep)| ==> sep !in SplitOn(s, sep)[k]
  {
    if s != [] {
      var rest := SplitOn(s[1..], sep);
      SplitOnPieces(s[1..], sep);
      if s[0] != sep {
        var parts := [[s[0]] + rest[0]] + rest[1..];
        forall k | 0 <= k < |parts| ensures sep !in parts[k] {
          if k > 0 {
            assert parts[k] == rest[k];
          }
        }
      }
    }
  }

  /** The commands, with their numeric arguments still as text
      (`Int32.Parse` is not modelled); `None` stands for an argument left
      out, which the program replaces by -1. */
  datatype Command =
    | Shuffle(source: string, batchSize: string, target: string)
    | Split(source: string, testFracUp: string, testFracDown: string, processLinesLimit: Option<string>)
    | FractionWithoutSlash(source: string)   // `splitFracStr[1]` is out of range
    | Count(source: string)
    | Chunk(source: string, chunkSize: string, numberOfDigits: Option<string>)
    | Usage

  /** What a run does: the encoding it selected, the command it carries
      out, and whether, once that command returns normally, the run goes on
      to print the usage text and exit with code 1. An exception raised
      inside the command ends the run before that point. */
  datatype Invocation = Invocation(encoding: Option<string>, command: Command, usageOnReturn: bool)

  /** The argument counts each command accepts, its own name included:
      `-shuffle`, `-split` and `-chunk` take 3 or 4, `-count` takes 2. */
  predicate Accepts(name: string, count: nat) {
    || ((name == "-shuffle" || name == "-split" || name == "-chunk") && (count == 3 || count == 4))
    || (name == "-count" && count == 2)
  }

  /** The `switch` on the lower-cased first argument: a command is carried
      out exactly when its name is known and it has an accepted number of
      arguments; anything else falls to the usage text. */
  function SelectCommand(args: seq<string>): (cmd: Command)
    ensures cmd.Usage? <==> |args| == 0 || !Accepts(ToLower(args[0]), |args|)
    ensures cmd.Shuffle? <==> |args| > 0 && ToLower(args[0]) == "-shuffle" && Accepts("-shuffle", |args|)
    ensures cmd.Split? <==>
      |args| > 0 && ToLower(args[0]) == "-split" && Accepts("-split", |args|) && '/' in args[2]
    ensures cmd.FractionWithoutSlash? <==>
      |args| > 0 && ToLower(args[0]) == "-split" && Accepts("-split", |args|) && '/' !in args[2]
    ensures cmd.Count? <==> |args| > 0 && ToLower(args[0]) == "-count" && Accepts("-count", |args|)
    ensures cmd.Chunk? <==> |args| > 0 && ToLower(args[0]) == "-chunk" && Accepts("-chunk", |args|)
    ensures !cmd.Usage? ==> cmd.source == args[1]
    ensures cmd.Shuffle? ==>
      cmd.batchSize == args[2] && cmd.target == (if |args| == 4 then args[3] else args[1] + ".shuffled")
    ensures cmd.Split? ==>
      && cmd.testFracUp == SplitOn(args[2], '/')[0]
      && cmd.testFracDown == SplitOn(args[2], '/')[1]
      && cmd.processLinesLimit == (if |args| == 4 then Some(args[3]) else None)
    ensures cmd.Chunk? ==>
      cmd.chunkSize == args[2] && cmd.numberOfDigits == (if |args| == 4 then Some(args[3]) else None)
  {
    if |args| == 0 then Usage
    else
      var name := ToLower(args[0]);
      if name == "-shuffle" && (|args| == 3 || |args| == 4) then
        Shuffle(args[1], args[2], if |args| == 4 then args[3] else args[1] + ".shuffled")
      else if name == "-split" && (|args| == 3 || |args| == 4) then
        var fraction := SplitOn(args[2], '/');
        if |fraction| < 2 then FractionWithoutSlash(args[1])
        else Split(args[1], fraction[0], fraction[1], if |args| == 4 then Some(args[3]) else None)
      else if name == "-count" && |args| == 2 then Count(args[1])
      else if name == "-chunk" && (|args| == 3 || |args| == 4) then
        Chunk(args[1], args[2], if |args| == 4 then Some(args[3]) else None)
      else Usage
  }

  /** `Main`: a leading `-enc <name>` (any case) picks the encoding and is
      removed, once; the rest picks the command. The `-chunk` case has no
      `return`, so when chunking returns normally it falls through to the
      usage text and `Exit(1)`. So the usage text follows the command's
      normal return exactly when the arguments after the prefix are empty,
      name no command, have a count the command does not accept, or name
      `-chunk`. */
  function Dispatch(args: seq<string>): (inv: Invocation)
    ensures inv.encoding.Some? <==> |args| > 1 && ToLower(args[0]) == "-enc"
    ensures inv.encoding.Some? ==> inv.encoding.value == args[1]
    ensures var rest := if inv.encoding.Some? then args[2..] else args;
      inv.usageOnReturn <==> |rest| == 0 || !Accepts(ToLower(rest[0]), |rest|) || ToLower(rest[0]) == "-chunk"
  {
    var stripped := |args| > 1 && ToLower(args[0]) == "-enc";
    var encoding := if stripped then Some(args[1]) else None;
    var rest := if stripped then args[2..] else args;
    var command := SelectCommand(rest);
    Invocation(encoding, command, command.Usage? || command.Chunk?)
  }

  /** The `-enc` prefix only sets the encoding: the command is the one the
      remaining arguments select on their own. */
  lemma EncodingPrefixIsTransparent(name: string, args: seq<string>)
    requires |args| == 0 || ToLower(args[0]) != "-enc"
    ensures Dispatch(["-enc", name] + args).encoding == Some(name)
    ensures Dispatch(["-enc", name] + args).command == Dispatch(args).command
  {
    assert ToLower("-enc") == "-enc";
    assert (["-enc", name] + args)[2..] == args;
  }

  /** Only one prefix is removed: a second `-enc` is an unknown command. */
  lemma SecondEncodingPrefixIsUsage(a: string, b: string)
    ensures Dispatch(["-enc", a, "-enc", b]).command == Usage
  {
    assert ToLower("-enc") == "-enc";
    assert ["-enc", a, "-enc", b][2..] == ["-enc", b];
  }

  /** The command name is matched without regard to case. */
  lemma CommandNameIgnoresCase(name: string, args: seq<string>)
    ensures SelectCommand([ToLower(name)] + args) == SelectCommand([name] + args)
  {
    var a, b := [ToLower(name)] + args, [name] + args;
    ToLowerIdempotent(name);
    SameNameSameCommand(a, b);
  }

  /** The command depends on the first argument only through its lower-cased
      form. */
  lemma SameNameSameCommand(a: seq<string>, b: seq<string>)
    requires |a| == |b| > 0 && ToLower(a[0]) == ToLower(b[0])
    requires forall k :: 1 <= k < |a| ==> a[k] == b[k]
    ensures SelectCommand(a) == SelectCommand(b)
  {
    if |a| >= 3 {
      assert a[1] == b[1] && a[2] == b[2];
    }
    if |a| == 4 || |a| == 2 {
      assert a[|a| - 1] == b[|a| - 1];
    }
  }

  /** Without a target, shuffle writes next to the source with the
      `.shuffled` suffix. */
  lemma ShuffleDefaultTarget(source: string, batchSize: string)
    ensures Dispatch(["-shuffle", source, batchSize]).command == Shuffle(source, batchSize, source + ".shuffled")
  {
    assert ToLower("-shuffle") == "-shuffle";
    assert ToLower("-shuffle") != "-enc";
  }

  /** Chunking runs and, when it returns normally, the usage text and exit
      code 1 follow. */
  lemma ChunkEndsWithUsage(source: string, chunkSize: string)
    ensures Dispatch(["-chunk", source, chunkSize]).command == Chunk(source, chunkSize, None)
    ensures Dispatch(["-chunk", source, chunkSize]).usageOnReturn
  {
    assert ToLower("-chunk") == "-chunk";
    assert ToLower("-chunk") != "-enc";
  }

  /** A split fraction "1/10" gives numerator "1" and denominator "10". */
  lemma SplitFractionPieces(source: string)
    ensures Dispatch(["-split", source, "1/10"]).command == Split(source, "1", "10", None)
  {
    assert ToLower("-split") == "-split";
    assert ToLower("-split") != "-enc";
    SlashSplitsOneTenth();
  }

  lemma SlashSplitsOneTenth()
    ensures SplitOn("1/10", '/') == ["1", "10"]
  {
    assert "0"[1..] == "" && ['0'] + "" == "0";
    assert SplitOn("0", '/') == ["0"];
    assert "10"[1..] == "0" && ['1'] + "0" == "10";
    assert SplitOn("10", '/') == ["10"];
    assert "/10"[1..] == "10";
    assert SplitOn("/10", '/') == ["", "10"];
    assert "1/10"[1..] == "/10" && ['1'] + "" == "1";
  }
}
