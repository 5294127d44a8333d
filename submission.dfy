/**
 * The pure parts of storage/submission.py: the path under which an upload is
 * saved, and the argument list of the submit command, built by replacing every
 * "FILE" in the configured template with the absolute path of the saved file
 * and splitting the result on single spaces (Python's str.replace and
 * str.split(" ")).
 */
module Submission {

  /** The placeholder in the command template. */
  const PLACEHOLDER := "FILE"

  /** The separator the command is split on. */
  const SPACE := ' '

  // ---------------------------------------------------------------------------
  // str.replace and str.split, with their reference counts

  /**
   * str.replace: every non-overlapping occurrence of a non-empty pattern, found
   * left to right, is replaced; the replacement text is not scanned again.
   */
  function Replace(s: string, pattern: string, replacement: string): string
    requires pattern != []
    decreases |s|
  {
    if |s| < |pattern| then s
    else if s[..|pattern|] == pattern then replacement + Replace(s[|pattern|..], pattern, replacement)
    else [s[0]] + Replace(s[1..], pattern, replacement)
  }

  /** str.count: the number of non-overlapping occurrences of a non-empty pattern, found left to right. */
  function Occurrences(s: string, pattern: string): nat
    requires pattern != []
    decreases |s|
  {
    if |s| < |pattern| then 0
    else if s[..|pattern|] == pattern then 1 + Occurrences(s[|pattern|..], pattern)
    else Occurrences(s[1..], pattern)
  }

  /** The number of times a character appears. */
  function CountChar(s: string, c: char): nat
  {
    if s == [] then 0 else (if s[0] == c then 1 else 0) + CountChar(s[1..], c)
  }

  /** str.split(sep) with an explicit one-character separator: consecutive separators give empty parts. */
  function Split(s: string, sep: char): seq<string>
  {
    if s == [] then [""]
    else
      var rest := Split(s[1..], sep);
      if s[0] == sep then [""] + rest
      else [[s[0]] + rest[0]] + rest[1..]
  }

  /** str.join: the parts with the separator between each two neighbours. */
  function Join(parts: seq<string>, sep: char): string
  {
    if parts == [] then ""
    else if |parts| == 1 then parts[0]
    else parts[0] + [sep] + Join(parts[1..], sep)
  }

  // ---------------------------------------------------------------------------
  // The submit command (execute_submission)

  /**
   * pathlib's joinpath of a relative name (such as a generated id) onto a
   * directory: "." for an empty directory is dropped and no separator is doubled.
   */
  function JoinPath(directory: string, name: string): string
  {
    if directory == [] then name
    else if directory[|directory| - 1] == '/' then directory + name
    else directory + "/" + name
  }

  /** Path.absolute(): an absolute path is kept, a relative one is joined onto the working directory. */
  function Absolute(workingDirectory: string, path: string): string
  {
    if |path| > 0 && path[0] == '/' then path else JoinPath(workingDirectory, path)
  }

  /** save_submitted_content: the upload is written to SUBMIT_DIRECTORY joined with a freshly generated id. */
  function SavedFilePath(submitDirectory: string, fileId: string): string
  {
    JoinPath(submitDirectory, fileId)
  }

  /** The command line: the template with every "FILE" replaced by the absolute path of the saved file. */
  function CommandLine(template: string, workingDirectory: string, savedPath: string): string
  {
    Replace(template, PLACEHOLDER, Absolute(workingDirectory, savedPath))
  }

  /** The argument list handed to subprocess.run: the command line split on single spaces. */
  function CommandArguments(template: string, workingDirectory: string, savedPath: string): (args: seq<string>)
    ensures |args| >= 1
  {
    SplitLength(CommandLine(template, workingDirectory, savedPath), SPACE);
    Split(CommandLine(template, workingDirectory, savedPath), SPACE)
  }

  /** What submit hands on: the submission id it returns and the saved path the background thread gets. */
  datatype Submitted = Submitted(submissionId: string, savedPath: string)

  /**
   * submit's data flow: one generated id is returned, and the upload is saved
   * under a second, separately generated id.
   */
  function Submit(submissionId: string, fileId: string, submitDirectory: string): Submitted
  {
    Submitted(submissionId, SavedFilePath(submitDirectory, fileId))
  }

  /** The last component of a path: everything after its last '/'. */
  function BaseName(path: string): string
  {
    if path == [] || path[|path| - 1] == '/' then ""
    else BaseName(path[..|path| - 1]) + [path[|path| - 1]]
  }

  // ---------------------------------------------------------------------------
  // Lemmas on replace

  /** A template without the pattern is returned unchanged. */
  lemma {:induction false} ReplaceWithoutOccurrence(s: string, pattern: string, replacement: string)
    requires pattern != []
    requires Occurrences(s, pattern) == 0
    ensures Replace(s, pattern, replacement) == s
    decreases |s|
  {
    if |s| >= |pattern| {
      assert s[..|pattern|] != pattern;
      ReplaceWithoutOccurrence(s[1..], pattern, replacement);
      assert s == [s[0]] + s[1..];
    }
  }

  /** With k occurrences, the length changes by k times the difference of the replacement's and the pattern's lengths. */
  lemma {:induction false} ReplaceLength(s: string, pattern: string, replacement: string)
    requires pattern != []
    ensures |Replace(s, pattern, replacement)| == |s| + Occurrences(s, pattern) * (|replacement| - |pattern|)
    decreases |s|
  {
    if |s| < |pattern| {
    } else if s[..|pattern|] == pattern {
      var rest := s[|pattern|..];
      ReplaceLength(rest, pattern, replacement);
      ShiftByOne(|rest|, Occurrences(rest, pattern), |pattern|, |replacement|);
    } else {
      ReplaceLength(s[1..], pattern, replacement);
    }
  }

  lemma {:induction false} CountCharAppend(a: string, b: string, c: char)
    ensures CountChar(a + b, c) == CountChar(a, c) + CountChar(b, c)
    decreases |a|
  {
    if a != [] {
      assert (a + b)[1..] == a[1..] + b;
      CountCharAppend(a[1..], b, c);
    } else {
      assert a + b == b;
    }
  }

  /**
   * Replacing changes the count of a character by the occurrences times the
   * difference of its counts in the replacement and in the pattern.
   */
  lemma {:induction false} ReplaceCountChar(s: string, pattern: string, replacement: string, c: char)
    requires pattern != []
    ensures CountChar(Replace(s, pattern, replacement), c)
         == CountChar(s, c) + Occurrences(s, pattern) * (CountChar(replacement, c) - CountChar(pattern, c))
    decreases |s|
  {
    if |s| < |pattern| {
    } else if s[..|pattern|] == pattern {
      var rest := s[|pattern|..];
      ReplaceCountChar(rest, pattern, replacement, c);
      CountCharAppend(replacement, Replace(rest, pattern, replacement), c);
      assert s == pattern + rest;
      CountCharAppend(pattern, rest, c);
      ShiftByOne(CountChar(rest, c), Occurrences(rest, pattern), CountChar(pattern, c), CountChar(replacement, c));
    } else {
      ReplaceCountChar(s[1..], pattern, replacement, c);
      CountCharAppend([s[0]], Replace(s[1..], pattern, replacement), c);
      assert s == [s[0]] + s[1..];
      CountCharAppend([s[0]], s[1..], c);
    }
  }

  /** The arithmetic step for a matched occurrence: its own difference plus k times the difference. */
  lemma ShiftByOne(n: int, k: int, p: int, r: int)
    ensures r + (n + k * (r - p)) == (p + n) + (1 + k) * (r - p)
  {
  }

  // ---------------------------------------------------------------------------
  // Lemmas on split and join

  /** One more part than separators. */
  lemma {:induction false} SplitLength(s: string, sep: char)
    ensures |Split(s, sep)| == CountChar(s, sep) + 1
    decreases |s|
  {
    if s != [] {
      SplitLength(s[1..], sep);
    }
  }

  /** No part contains the separator. */
  lemma {:induction false} SplitPartsFree(s: string, sep: char)
    ensures forall i :: 0 <= i < |Split(s, sep)| ==> sep !in Split(s, sep)[i]
    decreases |s|
  {
    if s != [] {
      SplitPartsFree(s[1..], sep);
      SplitLength(s[1..], sep);
      var rest := Split(s[1..], sep);
      if s[0] != sep {
        assert sep !in rest[0];
        assert sep !in [s[0]] + rest[0];
      }
    }
  }

  /** Joining the parts with the separator gives back the string exactly. */
  lemma {:induction false} JoinSplit(s: string, sep: char)
    ensures Join(Split(s, sep), sep) == s
    decreases |s|
  {
    if s != [] {
      var rest := Split(s[1..], sep);
      JoinSplit(s[1..], sep);
      SplitLength(s[1..], sep);
      if s[0] == sep {
        JoinAfterEmpty(rest, sep);
      } else {
        JoinExtendFirst(s[0], rest, sep);
      }
      assert s == [s[0]] + s[1..];
    }
  }

  /** An empty first part contributes just the separator. */
  lemma JoinAfterEmpty(parts: seq<string>, sep: char)
    requires parts != []
    ensures Join([""] + parts, sep) == [sep] + Join(parts, sep)
  {
    assert ([""] + parts)[1..] == parts;
  }

  /** Extending the first part by a character extends the join by that character. */
  lemma JoinExtendFirst(c: char, parts: seq<string>, sep: char)
    requires parts != []
    ensures Join([[c] + parts[0]] + parts[1..], sep) == [c] + Join(parts, sep)
  {
    var extended := [[c] + parts[0]] + parts[1..];
    if |parts| > 1 {
      assert extended[1..] == parts[1..];
    }
  }

  /** Splitting a join of separator-free parts gives back the parts. */
  lemma {:induction false} SplitJoin(parts: seq<string>, sep: char)
    requires parts != []
    requires forall i :: 0 <= i < |parts| ==> sep !in parts[i]
    ensures Split(Join(parts, sep), sep) == parts
    decreases |parts|
  {
    if |parts| == 1 {
      SplitFree(parts[0], sep);
    } else {
      SplitJoin(parts[1..], sep);
      SplitPrefix(parts[0], Join(parts[1..], sep), sep);
      assert parts == [parts[0]] + parts[1..];
    }
  }

  /** A string without the separator splits into itself. */
  lemma {:induction false} SplitFree(s: string, sep: char)
    requires sep !in s
    ensures Split(s, sep) == [s]
    decreases |s|
  {
    if s != [] {
      SplitFree(s[1..], sep);
      assert s == [s[0]] + s[1..];
    }
  }

  /** A separator-free prefix followed by the separator becomes the first part. */
  lemma {:induction false} SplitPrefix(a: string, b: string, sep: char)
    requires sep !in a
    ensures Split(a + [sep] + b, sep) == [a] + Split(b, sep)
    decreases |a|
  {
    if a == [] {
      assert a + [sep] + b == [sep] + b;
      assert ([sep] + b)[1..] == b;
    } else {
      var s := a + [sep] + b;
      assert s[0] == a[0];
      assert s[1..] == a[1..] + [sep] + b;
      SplitPrefix(a[1..], b, sep);
      assert a == [a[0]] + a[1..];
    }
  }

  // ---------------------------------------------------------------------------
  // Lemmas on the command

  /** A template without "FILE" runs as it is, whatever the path. */
  lemma CommandWithoutPlaceholder(template: string, workingDirectory: string, savedPath: string)
    requires Occurrences(template, PLACEHOLDER) == 0
    ensures CommandLine(template, workingDirectory, savedPath) == template
    ensures CommandArguments(template, workingDirectory, savedPath) == Split(template, SPACE)
  {
    ReplaceWithoutOccurrence(template, PLACEHOLDER, Absolute(workingDirectory, savedPath));
  }

  /** The command's length is the template's plus k times (length of the path - 4). */
  lemma CommandLength(template: string, workingDirectory: string, savedPath: string)
    ensures |CommandLine(template, workingDirectory, savedPath)|
         == |template| + Occurrences(template, PLACEHOLDER) * (|Absolute(workingDirectory, savedPath)| - 4)
  {
    ReplaceLength(template, PLACEHOLDER, Absolute(workingDirectory, savedPath));
  }

  /**
   * The arguments, joined with spaces, reproduce the command line exactly; no
   * argument contains a space; there is one more argument than spaces; and
   * splitting is the inverse of joining.
   */
  lemma ArgumentsRebuildCommand(template: string, workingDirectory: string, savedPath: string)
    ensures Join(CommandArguments(template, workingDirectory, savedPath), SPACE) == CommandLine(template, workingDirectory, savedPath)
    ensures forall i :: 0 <= i < |CommandArguments(template, workingDirectory, savedPath)| ==>
      SPACE !in CommandArguments(template, workingDirectory, savedPath)[i]
    ensures |CommandArguments(template, workingDirectory, savedPath)| == CountChar(CommandLine(template, workingDirectory, savedPath), SPACE) + 1
  {
    var line := CommandLine(template, workingDirectory, savedPath);
    JoinSplit(line, SPACE);
    SplitPartsFree(line, SPACE);
    SplitLength(line, SPACE);
  }

  /** When the absolute path has no space, the command has as many arguments as the template. */
  lemma ArgumentCountKept(template: string, workingDirectory: string, savedPath: string)
    requires SPACE !in Absolute(workingDirectory, savedPath)
    ensures |CommandArguments(template, workingDirectory, savedPath)| == |Split(template, SPACE)|
  {
    var path := Absolute(workingDirectory, savedPath);
    NoCharNoCount(path, SPACE);
    assert CountChar(PLACEHOLDER, SPACE) == 0 by {
      NoCharNoCount(PLACEHOLDER, SPACE);
    }
    ReplaceCountChar(template, PLACEHOLDER, path, SPACE);
    SplitLength(CommandLine(template, workingDirectory, savedPath), SPACE);
    SplitLength(template, SPACE);
  }

  lemma {:induction false} NoCharNoCount(s: string, c: char)
    requires c !in s
    ensures CountChar(s, c) == 0
    decreases |s|
  {
    if s != [] {
      assert c !in s[1..];
      NoCharNoCount(s[1..], c);
    }
  }

  // ---------------------------------------------------------------------------
  // Lemmas on the saved path

  /** The saved file's name is exactly the generated id, whatever the directory. */
  lemma SavedFileNamedById(submitDirectory: string, fileId: string)
    requires fileId != [] && '/' !in fileId
    ensures BaseName(SavedFilePath(submitDirectory, fileId)) == fileId
  {
    if submitDirectory == [] {
      BaseNameOfSuffix([], fileId);
      assert [] + fileId == fileId;
    } else if submitDirectory[|submitDirectory| - 1] == '/' {
      BaseNameOfSuffix(submitDirectory, fileId);
    } else {
      BaseNameOfSuffix(submitDirectory + "/", fileId);
    }
  }

  /**
   * Two submissions into the same directory save their uploads to the same
   * path exactly when they drew the same file id, whatever submission ids
   * they return.
   */
  lemma SavedPathsDistinctByFileId(submissionId: string, otherId: string, fileId: string, otherFileId: string, submitDirectory: string)
    requires fileId != [] && '/' !in fileId
    requires otherFileId != [] && '/' !in otherFileId
    ensures Submit(submissionId, fileId, submitDirectory).savedPath == Submit(otherId, otherFileId, submitDirectory).savedPath
        <==> fileId == otherFileId
  {
    SavedFileNamedById(submitDirectory, fileId);
    SavedFileNamedById(submitDirectory, otherFileId);
  }

  /** Appending a slash-free name after a prefix that is empty or ends with '/' makes it the base name. */
  lemma {:induction false} BaseNameOfSuffix(prefix: string, name: string)
    requires prefix == [] || prefix[|prefix| - 1] == '/'
    requires '/' !in name
    ensures BaseName(prefix + name) == name
    decreases |name|
  {
    if name == [] {
      assert prefix + name == prefix;
    } else {
      var n := |name| - 1;
      assert (prefix + name)[..|prefix + name| - 1] == prefix + name[..n];
      assert name[n] in name;
      BaseNameOfSuffix(prefix, name[..n]);
      assert name == name[..n] + [name[n]];
    }
  }
}
