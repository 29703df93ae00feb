/**
 * Temp-file names of the atomic writer: `<file>.tmp.<pid>.<millisecond>.<counter>`. The three
 * numerals can be read back from the right-hand end, so two calls share a temp name only if
 * they agree on all four parts.
 */
module TempNames {
  import opened Basics
  import opened Decimal

  datatype Stamp = Stamp(pid: nat, ms: nat, counter: nat)

  function Tail(n: nat): string {
    "." + Show(n)
  }

  function TmpPath(file: string, s: Stamp): string {
    file + ".tmp" + Tail(s.pid) + Tail(s.ms) + Tail(s.counter)
  }

  /** Cuts the last dotted numeral off: "a.b.17" gives "a.b" and 17. */
  function CutNumeral(s: string): Option<(string, nat)> {
    var head := DropTrailingDigits(s);
    var digits := s[|head|..];
    if head != [] && head[|head| - 1] == '.' && digits != [] && AllDigits(digits)
    then Some((head[..|head| - 1], Value(digits))) else None
  }

  function DropTrailingDigits(s: string): (head: string)
    ensures |head| <= |s| && head == s[..|head|]
  {
    if s != [] && IsDigit(s[|s| - 1]) then DropTrailingDigits(s[..|s| - 1]) else s
  }

  lemma {:induction false} DropDigits(s: string, digits: string)
    requires AllDigits(digits)
    requires s == [] || !IsDigit(s[|s| - 1])
    ensures DropTrailingDigits(s + digits) == s
  {
    if digits == [] {
      assert s + digits == s;
    } else {
      assert (s + digits)[..|s + digits| - 1] == s + digits[..|digits| - 1];
      DropDigits(s, digits[..|digits| - 1]);
    }
  }

  lemma CutsWhatWasAppended(s: string, n: nat)
    ensures CutNumeral(s + Tail(n)) == Some((s, n))
  {
    ShowReadsBack(n);
    var t := s + Tail(n);
    assert t == (s + ".") + Show(n);
    DropDigits(s + ".", Show(n));
    assert t[|s| + 1..] == Show(n) && (s + ".")[..|s|] == s;
  }

  /** Reads a temp name back into the file it stands for and its stamp. */
  function ParseTmp(path: string): Option<(string, Stamp)> {
    var c := CutNumeral(path);
    if c.None? then None else
    var m := CutNumeral(c.value.0);
    if m.None? then None else
    var p := CutNumeral(m.value.0);
    if p.None? then None else
    var rest := p.value.0;
    if |rest| >= 4 && rest[|rest| - 4..] == ".tmp"
    then Some((rest[..|rest| - 4], Stamp(p.value.1, m.value.1, c.value.1))) else None
  }

  lemma TmpPathReadsBack(file: string, s: Stamp)
    ensures ParseTmp(TmpPath(file, s)) == Some((file, s))
  {
    var rest := file + ".tmp";
    CutsWhatWasAppended(rest, s.pid);
    CutsWhatWasAppended(rest + Tail(s.pid), s.ms);
    CutsWhatWasAppended(rest + Tail(s.pid) + Tail(s.ms), s.counter);
    assert rest[|rest| - 4..] == ".tmp" && rest[..|rest| - 4] == file;
  }

  /** Distinct (file, pid, millisecond, counter) never collide on a temp name. */
  lemma TmpPathInjective(file: string, s: Stamp, file': string, s': Stamp)
    requires TmpPath(file, s) == TmpPath(file', s')
    ensures file == file' && s == s'
  {
    TmpPathReadsBack(file, s);
    TmpPathReadsBack(file', s');
  }

  /** Reads as a temp name, and is spelled just as one: no leading zeros in the numerals. */
  predicate IsTempName(path: string) {
    ParseTmp(path).Some? && TmpPath(ParseTmp(path).value.0, ParseTmp(path).value.1) == path
  }

  /** A caller can check whether its destination could be some call's temp file. */
  lemma TempNameExactlyWhen(path: string)
    ensures IsTempName(path) <==> exists file, s :: path == TmpPath(file, s)
  {
    if file, s :| path == TmpPath(file, s) {
      TmpPathReadsBack(file, s);
    }
  }
}
