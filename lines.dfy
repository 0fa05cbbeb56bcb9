/**
 * The list operations both fallback readers apply to the lines of a model
 * response: dropping blank lines, cleaning every line, keeping the candidates
 * longer than two characters.
 */
module Lines {
  import opened Text

  /** The bullet characters a list line may start with. */
  predicate IsBullet(c: char) {
    c == '-' || c == '*' || c == '•'
  }

  /** `line.replace(/^[-*•]\s*\/, '')`: one leading bullet and the spaces after it. */
  function StripBullet(line: string): string {
    if line != [] && IsBullet(line[0]) then TrimStart(line[1..]) else line
  }

  /** `line.replace(/^\d+\.\s*\/, '')`: a leading "12." and the spaces after it. */
  function StripNumbering(line: string): string {
    var k := LeadingDigits(line);
    if 0 < k < |line| && line[k] == '.' then TrimStart(line[k + 1..]) else line
  }

  /** Digits ending at `k` followed by a dot: the rest after the dot, less its
      leading spaces. */
  lemma StripNumberingAt(line: string, k: nat)
    requires 0 < k < |line| && LeadingDigits(line) == k && line[k] == '.'
    ensures StripNumbering(line) == TrimStart(line[k + 1..])
  {
  }

  /** The numbering pattern removes "12." and the spaces after it. */
  lemma StripNumberingOf(digits: string, spaces: string, rest: string)
    requires digits != [] && forall i :: 0 <= i < |digits| ==> IsDigit(digits[i])
    requires Blank(spaces) && (rest == [] || !IsSpace(rest[0]))
    ensures StripNumbering(digits + "." + spaces + rest) == rest
  {
    var after := spaces + rest;
    var tail := "." + after;
    var line := digits + tail;
    assert line == digits + "." + spaces + rest;
    var k := |digits|;
    assert LeadingDigits(line) == k by {
      LeadingDigitsBefore(digits, tail);
    }
    assert k < |line| && line[k] == '.' && line[k + 1..] == after by {
      assert line[k..] == tail;
    }
    assert StripNumbering(line) == TrimStart(after) by {
      StripNumberingAt(line, k);
    }
    assert TrimStart(after) == rest by {
      TrimStartBlankPrefix(spaces, rest);
    }
  }

  /** `lines.filter(line => line.trim())`: the lines that are not blank, in order. */
  function NonBlank(lines: seq<string>): (r: seq<string>)
    ensures |r| <= |lines|
    ensures forall i :: 0 <= i < |r| ==> !Blank(r[i])
    ensures forall i :: 0 <= i < |lines| && !Blank(lines[i]) ==> lines[i] in r
  {
    if lines == [] then []
    else (if Blank(lines[0]) then [] else [lines[0]]) + NonBlank(lines[1..])
  }

  /** `lines.map(f)`. */
  function MapLines(f: string -> string, lines: seq<string>): (r: seq<string>)
    ensures |r| == |lines|
  {
    if lines == [] then [] else [f(lines[0])] + MapLines(f, lines[1..])
  }

  /** `candidates.filter(c => c.length > 2)`: the candidates longer than two
      characters, in order. */
  function LongEnough(candidates: seq<string>): (r: seq<string>)
    ensures |r| <= |candidates|
    ensures forall i :: 0 <= i < |r| ==> |r[i]| > 2 && r[i] in candidates
  {
    if candidates == [] then []
    else (if |candidates[0]| > 2 then [candidates[0]] else []) + LongEnough(candidates[1..])
  }

  /** Mapping a function whose results are all trimmed gives trimmed lines. */
  lemma {:induction false} MapLinesTrimmed(f: string -> string, lines: seq<string>)
    requires forall x :: Trimmed(f(x))
    ensures forall i :: 0 <= i < |MapLines(f, lines)| ==> Trimmed(MapLines(f, lines)[i])
  {
    if lines != [] {
      var r, t := MapLines(f, lines), MapLines(f, lines[1..]);
      MapLinesTrimmed(f, lines[1..]);
      assert r == [f(lines[0])] + t;
      forall i | 0 <= i < |r|
        ensures Trimmed(r[i])
      {
        if i > 0 {
          assert r[i] == t[i - 1];
        }
      }
    }
  }

  /** Mapping one more line appends its image. */
  lemma {:induction false} MapLinesSnoc(f: string -> string, lines: seq<string>, line: string)
    ensures MapLines(f, lines + [line]) == MapLines(f, lines) + [f(line)]
  {
    var x := lines + [line];
    if lines == [] {
      assert x == [line];
    } else {
      assert x[0] == lines[0] && x[1..] == lines[1..] + [line];
      MapLinesSnoc(f, lines[1..], line);
    }
  }

  /** Filtering one more candidate appends it when it is long enough. */
  lemma {:induction false} LongEnoughSnoc(candidates: seq<string>, c: string)
    ensures LongEnough(candidates + [c]) == LongEnough(candidates) + (if |c| > 2 then [c] else [])
  {
    if candidates == [] {
      assert candidates + [c] == [c];
    } else {
      assert (candidates + [c])[1..] == candidates[1..] + [c];
      LongEnoughSnoc(candidates[1..], c);
    }
  }

  /** A name a fallback reader takes over unchanged when it stands on a line
      of its own: one line, not blank, longer than two characters. */
  predicate ListedName(name: string) {
    '\n' !in name && !Blank(name) && |name| > 2
  }

  /** Lines that need no cleaning pass all three steps unchanged. */
  lemma {:induction false} ListedNamesKept(f: string -> string, names: seq<string>)
    requires forall i :: 0 <= i < |names| ==> ListedName(names[i]) && f(names[i]) == names[i]
    ensures NonBlank(names) == names
    ensures MapLines(f, names) == names
    ensures LongEnough(names) == names
  {
    if names != [] {
      ListedNamesKept(f, names[1..]);
    }
  }

  /** Reading names listed one per line, with a cleaning step that leaves
      each of them alone, yields exactly those names. */
  lemma ReadsListedNames(f: string -> string, names: seq<string>)
    requires |names| >= 1
    requires forall i :: 0 <= i < |names| ==> ListedName(names[i]) && f(names[i]) == names[i]
    ensures LongEnough(MapLines(f, NonBlank(Split(Join(names, "\n"), '\n')))) == names
  {
    SplitJoin(names, '\n');
    ListedNamesKept(f, names);
  }
}
