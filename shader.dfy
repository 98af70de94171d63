/**
 * `Shader::appendFile` of `src/shader.h`: reads a shader source file line by
 * line and appends it to a string, replacing every `#include "path"` line by
 * the expansion of the named file.
 *
 * The file system is a map from path to the file's lines as `getline`
 * yields them; a path missing from the map is a file that cannot be opened.
 * The original has no guard against a file that includes itself; the model
 * bounds the nesting depth by `fuel` and treats running out of it as a
 * failure to open the file.
 */
module Shader {
  import opened StringView

  type FileSystem = map<string, seq<View>>

  /** The directive that triggers recursive expansion. */
  const INCLUDE: string := "#include"

  predicate IsInclude(line: string) { StartsWith(line, INCLUDE) }

  /**
   * The path named by an `#include` line: the text after the first `"` up to
   * the last `"`; with a single `"`, the text after it; with none, the whole
   * line.
   */
  function IncludePath(line: View): View
  {
    PathBetween(line, FindFirstOf(line, '"'), FindLastOf(line, '"'))
  }

  /** Where a `"` can be found in `line`: `npos` for none, an index otherwise. */
  predicate QuotePositions(line: View, first: nat, last: nat)
  {
    (first == NPOS && last == NPOS) || (first <= last < |line|)
  }

  /** The path selected by the first and last `"` at `first` and `last`. */
  function PathBetween(line: View, first: nat, last: nat): View
    requires QuotePositions(line, first, last)
  {
    if first == NPOS then line
    else if first < last then line[first + 1..last] else line[first + 1..]
  }

  /**
   * `IncludePath` is what the original's `size_t` arithmetic computes: the
   * offset `find_first_of('"') + 1` wraps to 0 when there is no `"`, and the
   * length `find_last_of('"') - offset` wraps to a huge count, meaning "to the
   * end", unless a second `"` follows the first.
   */
  lemma IncludePathArithmetic(line: View)
    ensures SubstrArithmetic(line)
  {
    if '"' !in line {
      NoQuoteArithmetic(line);
    } else {
      FirstBeforeLast(line, '"');
      if FindFirstOf(line, '"') == FindLastOf(line, '"') {
        OneQuoteArithmetic(line);
      } else {
        TwoQuotesArithmetic(line);
      }
    }
  }

  /** The `substr` call the original makes for an `#include` line. */
  predicate SubstrArithmetic(line: View)
  {
    var first, last := FindFirstOf(line, '"'), FindLastOf(line, '"');
    FirstBeforeLast(line, '"');
    QuoteArithmetic(line, first, last)
  }

  /** The `substr` call for quotes at `first` and `last` selects `PathBetween`. */
  predicate QuoteArithmetic(line: View, first: nat, last: nat)
    requires QuotePositions(line, first, last)
  {
    var offset, path: string := SizeT(first + 1), PathBetween(line, first, last);
    Substr(line, offset, SizeT(last - offset)) == Some(path)
  }

  lemma NoQuoteArithmetic(line: View)
    requires '"' !in line
    ensures SubstrArithmetic(line)
  {
    NoQuoteAt(line);
  }

  lemma OneQuoteArithmetic(line: View)
    requires '"' in line && FindFirstOf(line, '"') == FindLastOf(line, '"')
    ensures SubstrArithmetic(line)
  {
    OneQuoteAt(line, FindFirstOf(line, '"'));
  }

  lemma TwoQuotesArithmetic(line: View)
    requires '"' in line && FindFirstOf(line, '"') < FindLastOf(line, '"')
    ensures SubstrArithmetic(line)
  {
    TwoQuotesAt(line, FindFirstOf(line, '"'), FindLastOf(line, '"'));
  }

  lemma NoQuoteAt(line: View)
    ensures QuoteArithmetic(line, NPOS, NPOS)
  {
    assert SizeT(NPOS + 1) == 0;
    SubstrToEnd(line, 0, NPOS);
    assert line[0..] == line;
  }

  lemma OneQuoteAt(line: View, quote: nat)
    requires quote < |line|
    ensures QuoteArithmetic(line, quote, quote)
  {
    assert SizeT(quote + 1) == quote + 1;
    assert SizeT(quote - (quote + 1)) == NPOS;
    SubstrToEnd(line, quote + 1, NPOS);
  }

  lemma TwoQuotesAt(line: View, first: nat, last: nat)
    requires first < last < |line|
    ensures QuoteArithmetic(line, first, last)
  {
    assert SizeT(first + 1) == first + 1;
    assert SizeT(last - (first + 1)) == last - (first + 1);
    SubstrWithin(line, first + 1, last - (first + 1));
  }

  /** The first occurrence of a character present in `s` is not after its last. */
  lemma FirstBeforeLast(s: View, c: char)
    ensures c in s ==> FindFirstOf(s, c) <= FindLastOf(s, c) < |s|
  {
  }

  lemma SubstrToEnd(s: string, pos: nat, count: nat)
    requires pos <= |s| && |s| - pos <= count
    ensures Substr(s, pos, count) == Some(s[pos..])
  {
  }

  lemma SubstrWithin(s: string, pos: nat, count: nat)
    requires pos + count <= |s|
    ensures Substr(s, pos, count) == Some(s[pos..pos + count])
  {
  }

  /** What an expansion yields: whether it succeeded, and the lines it appended. */
  datatype Outcome = Outcome(ok: bool, lines: seq<string>)

  /** The text the appended lines form: each line followed by one `'\n'`. */
  function Join(lines: seq<string>): string
  {
    if |lines| == 0 then [] else Join(lines[..|lines| - 1]) + lines[|lines| - 1] + "\n"
  }

  /** The expansion of file `name`, nested includes at most `fuel - 1` deep. */
  function Expand(fs: FileSystem, name: string, fuel: nat): Outcome
    decreases fuel, 0, 0
  {
    if fuel == 0 || name !in fs then Outcome(false, [])
    else ExpandLines(fs, fs[name], |fs[name]|, fuel - 1)
  }

  /**
   * The expansion of the first `n` lines of a file, in order; the first line
   * that fails stops it, keeping what was appended before and during that
   * line.
   */
  function ExpandLines(fs: FileSystem, lines: seq<View>, n: nat, fuel: nat): Outcome
    requires n <= |lines|
    decreases fuel, n, 2
  {
    if n == 0 then Outcome(true, [])
    else
      var init := ExpandLines(fs, lines, n - 1, fuel);
      if !init.ok then init
      else
        var last := LineExpansion(fs, lines[n - 1], fuel);
        Outcome(last.ok, init.lines + last.lines)
  }

  /** One line: an include is replaced by the named file, any other line is copied. */
  function LineExpansion(fs: FileSystem, line: View, fuel: nat): Outcome
    decreases fuel, 0, 1
  {
    if IsInclude(line) then
      var path := IncludePath(line);
      if |path| == 0 then Outcome(false, []) else Expand(fs, path, fuel)
    else Outcome(true, [line])
  }

  /**
   * `appendFile(str, filename)`: returns whether the file and all its
   * includes could be read, and the string with their expansion appended
   * (on failure, with what was appended before the failure).
   */
  method AppendFile(fs: FileSystem, str: string, filename: string, fuel: nat)
    returns (ok: bool, result: string)
    ensures ok == Expand(fs, filename, fuel).ok
    ensures result == str + Join(Expand(fs, filename, fuel).lines)
    decreases fuel, 1
  {
    if fuel == 0 || filename !in fs {
      return false, str;
    }
    ok, result := AppendLines(fs, str, fs[filename], fuel - 1);
  }

  /** The read loop: appends the lines in order and stops at the first that fails. */
  method AppendLines(fs: FileSystem, str: string, lines: seq<View>, fuel: nat)
    returns (ok: bool, result: string)
    ensures ok == ExpandLines(fs, lines, |lines|, fuel).ok
    ensures result == str + Join(ExpandLines(fs, lines, |lines|, fuel).lines)
    decreases fuel, 4
  {
    result := str;
    ghost var appended: seq<string> := [];
    var k := 0;
    while k < |lines|
      invariant k <= |lines|
      invariant ExpandLines(fs, lines, k, fuel) == Outcome(true, appended)
      invariant result == str + Join(appended)
    {
      var lineOk;
      lineOk, result, appended := AppendNext(fs, str, appended, result, lines, k, fuel);
      if !lineOk {
        FailureIsFinal(fs, lines, k + 1, |lines|, fuel);
        return false, result;
      }
      k := k + 1;
    }
    ok := true;
  }

  /** One pass of the read loop: after the first `k` lines, line `k` is appended. */
  method AppendNext(fs: FileSystem, ghost str: string, ghost appended: seq<string>, result: string,
                    lines: seq<View>, k: nat, fuel: nat)
    returns (ok: bool, next: string, ghost appendedNext: seq<string>)
    requires k < |lines| && ExpandLines(fs, lines, k, fuel) == Outcome(true, appended)
    requires result == str + Join(appended)
    ensures ExpandLines(fs, lines, k + 1, fuel) == Outcome(ok, appendedNext)
    ensures next == str + Join(appendedNext)
    decreases fuel, 3
  {
    ok, next := AppendLine(fs, result, lines[k], fuel);
    ExpandLinesNext(fs, lines, k, fuel);
    var line := LineExpansion(fs, lines[k], fuel).lines;
    appendedNext := appended + line;
    JoinAppend(appended, line);
    ConcatAssoc(str, Join(appended), Join(line));
  }

  lemma ConcatAssoc(a: string, b: string, c: string)
    ensures (a + b) + c == a + (b + c)
  {
  }

  /** After `k` lines expanded, the expansion of `k + 1` lines appends that of line `k`. */
  lemma ExpandLinesNext(fs: FileSystem, lines: seq<View>, k: nat, fuel: nat)
    requires k < |lines| && ExpandLines(fs, lines, k, fuel).ok
    ensures ExpandLines(fs, lines, k + 1, fuel) ==
      Outcome(LineExpansion(fs, lines[k], fuel).ok,
              ExpandLines(fs, lines, k, fuel).lines + LineExpansion(fs, lines[k], fuel).lines)
  {
  }

  /**
   * The body of the read loop for one line: an `#include` line with a
   * non-empty path appends the named file, one with an empty path fails, and
   * any other line is appended followed by `'\n'`.
   */
  method AppendLine(fs: FileSystem, str: string, line: View, fuel: nat)
    returns (ok: bool, result: string)
    ensures ok == LineExpansion(fs, line, fuel).ok
    ensures result == str + Join(LineExpansion(fs, line, fuel).lines)
    decreases fuel, 2
  {
    if IsInclude(line) {
      var path := IncludePath(line);
      if 0 < |path| {
        ok, result := AppendFile(fs, str, path, fuel);
        return;
      }
      return false, str;
    }
    assert Join([line]) == Join([]) + line + "\n";
    return true, str + line + "\n";
  }

  /** `Join` distributes over concatenation. */
  lemma {:induction false} JoinAppend(a: seq<string>, b: seq<string>)
    ensures Join(a + b) == Join(a) + Join(b)
    decreases |b|
  {
    if |b| == 0 {
      assert a + b == a;
    } else {
      JoinAppend(a, b[..|b| - 1]);
      assert (a + b)[..|a + b| - 1] == a + b[..|b| - 1];
      assert (a + b)[|a + b| - 1] == b[|b| - 1];
    }
  }

  /**
   * Once the first `k` lines fail, every longer prefix yields the same
   * failed outcome: nothing after the failing line is appended.
   */
  lemma {:induction false} FailureIsFinal(fs: FileSystem, lines: seq<View>, k: nat, n: nat, fuel: nat)
    requires k <= n <= |lines| && !ExpandLines(fs, lines, k, fuel).ok
    ensures ExpandLines(fs, lines, n, fuel) == ExpandLines(fs, lines, k, fuel)
    decreases n
  {
    if n > k {
      FailureIsFinal(fs, lines, k, n - 1, fuel);
    }
  }

  /**
   * If the lines before `lines[k]` expand and `lines[k]` fails, the file's
   * expansion fails with what was appended up to and including that line
   * (no roll-back).
   */
  lemma FailedLineStops(fs: FileSystem, lines: seq<View>, k: nat, fuel: nat)
    requires k < |lines| && ExpandLines(fs, lines, k, fuel).ok
    requires !LineExpansion(fs, lines[k], fuel).ok
    ensures ExpandLines(fs, lines, |lines|, fuel) ==
      Outcome(false, ExpandLines(fs, lines, k, fuel).lines + LineExpansion(fs, lines[k], fuel).lines)
  {
    FailureIsFinal(fs, lines, k + 1, |lines|, fuel);
  }

  /** A line of the expansion is a non-include line of some file. */
  predicate Copied(fs: FileSystem, line: string)
  {
    !IsInclude(line) && exists name :: name in fs && line in fs[name]
  }

  /**
   * Include lines are never copied: every line an expansion appends, whether
   * it succeeds or not, is a non-include line of some file.
   */
  lemma {:induction false} ExpandCopiesLines(fs: FileSystem, name: string, fuel: nat)
    ensures forall l :: l in Expand(fs, name, fuel).lines ==> Copied(fs, l)
    decreases fuel, 0, 0
  {
    if fuel > 0 && name in fs {
      ExpandLinesCopiesLines(fs, fs[name], |fs[name]|, fuel - 1, name);
    }
  }

  lemma {:induction false} ExpandLinesCopiesLines(fs: FileSystem, lines: seq<View>, n: nat, fuel: nat,
                                                  name: string)
    requires n <= |lines| && name in fs && fs[name] == lines
    ensures forall l :: l in ExpandLines(fs, lines, n, fuel).lines ==> Copied(fs, l)
    decreases fuel, n, 2
  {
    if n > 0 {
      ExpandLinesCopiesLines(fs, lines, n - 1, fuel, name);
      var line := lines[n - 1];
      if IsInclude(line) {
        var path := IncludePath(line);
        if |path| > 0 {
          ExpandCopiesLines(fs, path, fuel);
        }
      } else {
        assert line in fs[name];
      }
    }
  }

  /** A file without include lines expands to its own lines, in order. */
  lemma {:induction false} PlainFileExpandsToItself(fs: FileSystem, name: string, fuel: nat)
    requires 0 < fuel && name in fs
    requires forall i :: 0 <= i < |fs[name]| ==> !IsInclude(fs[name][i])
    ensures Expand(fs, name, fuel) == Outcome(true, fs[name])
  {
    var lines := fs[name];
    PlainLinesExpandToThemselves(fs, lines, |lines|, fuel - 1);
    assert lines[..|lines|] == lines;
  }

  lemma {:induction false} PlainLinesExpandToThemselves(fs: FileSystem, lines: seq<View>, n: nat, fuel: nat)
    requires n <= |lines|
    requires forall i :: 0 <= i < |lines| ==> !IsInclude(lines[i])
    ensures ExpandLines(fs, lines, n, fuel) == Outcome(true, lines[..n])
  {
    if n > 0 {
      PlainLinesExpandToThemselves(fs, lines, n - 1, fuel);
      assert lines[..n] == lines[..n - 1] + [lines[n - 1]];
    }
  }

  /**
   * More fuel does not change a successful expansion: the bound on nesting
   * matters only for include chains deeper than it.
   */
  lemma {:induction false} ExpandMoreFuel(fs: FileSystem, name: string, fuel: nat)
    requires Expand(fs, name, fuel).ok
    ensures Expand(fs, name, fuel + 1) == Expand(fs, name, fuel)
    decreases fuel, 0, 0
  {
    ExpandLinesMoreFuel(fs, fs[name], |fs[name]|, fuel - 1);
  }

  lemma {:induction false} ExpandLinesMoreFuel(fs: FileSystem, lines: seq<View>, n: nat, fuel: nat)
    requires n <= |lines| && ExpandLines(fs, lines, n, fuel).ok
    ensures ExpandLines(fs, lines, n, fuel + 1) == ExpandLines(fs, lines, n, fuel)
    decreases fuel, n, 2
  {
    if n > 0 {
      ExpandLinesMoreFuel(fs, lines, n - 1, fuel);
      LineExpansionMoreFuel(fs, lines[n - 1], fuel);
    }
  }

  lemma {:induction false} LineExpansionMoreFuel(fs: FileSystem, line: View, fuel: nat)
    requires LineExpansion(fs, line, fuel).ok
    ensures LineExpansion(fs, line, fuel + 1) == LineExpansion(fs, line, fuel)
    decreases fuel, 0, 1
  {
    if IsInclude(line) && |IncludePath(line)| > 0 {
      ExpandMoreFuel(fs, IncludePath(line), fuel);
    }
  }
}
