/** The string and path logic of the experiment code: decimal conversion of
    integers, `os.path.join` / `os.path.split`, the fields of `str.split`, the
    resolution of an experiment's sequence number and the default-extension
    rule for image names. */
module Naming {
  import opened Wrappers

  // ---------------------------------------------------------------------
  // Decimal integers: Python's str(int) and int(str)
  // ---------------------------------------------------------------------

  predicate IsDigit(c: char) {
    '0' <= c <= '9'
  }

  predicate AllDigits(s: string) {
    forall i :: 0 <= i < |s| ==> IsDigit(s[i])
  }

  function DigitChar(d: nat): (c: char)
    requires d < 10
    ensures IsDigit(c) && (c as int) - ('0' as int) == d
  {
    (('0' as int) + d) as char
  }

  /** str(n) for a non-negative n: decimal digits without leading zeros. */
  function NatToString(n: nat): (s: string)
    ensures |s| >= 1 && AllDigits(s)
    ensures |s| > 1 ==> s[0] != '0'
    decreases n
  {
    if n < 10 then [DigitChar(n)] else NatToString(n / 10) + [DigitChar(n % 10)]
  }

  /** str(i): a minus sign before the digits of a negative number. */
  function IntToString(i: int): (s: string)
    ensures |s| >= 1
    ensures forall k :: 0 <= k < |s| ==> IsDigit(s[k]) || (k == 0 && s[k] == '-')
  {
    if i < 0 then "-" + NatToString(-i) else NatToString(i)
  }

  /** The value of a non-empty run of decimal digits; None for any other text. */
  function DigitsValue(s: string): Option<nat> {
    if |s| == 0 || !IsDigit(s[|s| - 1]) then None
    else
      var d := (s[|s| - 1] as int) - ('0' as int);
      if |s| == 1 then Some(d)
      else match DigitsValue(s[..|s| - 1])
        case None => None
        case Some(v) => Some(v * 10 + d)
  }

  /** int(s) on a decimal literal with an optional sign; None where int()
      raises ValueError. */
  function ParseInt(s: string): Option<int> {
    if |s| > 0 && (s[0] == '-' || s[0] == '+') then
      match DigitsValue(s[1..])
        case None => None
        case Some(v) => if s[0] == '-' then Some(0 - v) else Some(v)
    else match DigitsValue(s)
      case None => None
      case Some(v) => Some(v)
  }

  /** An integer literal as int() reads it: an optional sign, then digits. */
  predicate IsIntLiteral(s: string) {
    var body := if |s| > 0 && (s[0] == '-' || s[0] == '+') then s[1..] else s;
    |body| > 0 && AllDigits(body)
  }

  lemma {:induction false} DigitsValueOnDigits(s: string)
    ensures DigitsValue(s).Some? <==> |s| > 0 && AllDigits(s)
  {
    if |s| > 1 && IsDigit(s[|s| - 1]) {
      DigitsValueOnDigits(s[..|s| - 1]);
      if AllDigits(s[..|s| - 1]) {
        assert forall i :: 0 <= i < |s| - 1 ==> s[i] == s[..|s| - 1][i];
      }
    }
  }

  /** int() accepts exactly the decimal literals, and a leading '-' makes the
      value non-positive, any other literal non-negative. */
  lemma ParseIntAcceptsLiterals(s: string)
    ensures ParseInt(s).Some? <==> IsIntLiteral(s)
    ensures ParseInt(s).Some? && s[0] == '-' ==> ParseInt(s).value <= 0
    ensures ParseInt(s).Some? && s[0] != '-' ==> ParseInt(s).value >= 0
  {
    if |s| > 0 && (s[0] == '-' || s[0] == '+') {
      DigitsValueOnDigits(s[1..]);
    } else {
      DigitsValueOnDigits(s);
    }
  }

  lemma {:induction false} DigitsOfNatToString(n: nat)
    ensures DigitsValue(NatToString(n)) == Some(n)
    decreases n
  {
    if n >= 10 {
      var s := NatToString(n);
      assert s[..|s| - 1] == NatToString(n / 10);
      DigitsOfNatToString(n / 10);
    }
  }

  /** int(str(i)) == i: the number in a folder name reads back as itself. */
  lemma {:induction false} ParseIntToString(i: int)
    ensures ParseInt(IntToString(i)) == Some(i)
  {
    if i < 0 {
      var s := IntToString(i);
      assert s[1..] == NatToString(-i);
      DigitsOfNatToString(-i);
    } else {
      DigitsOfNatToString(i);
      var s := NatToString(i);
      assert IsDigit(s[0]);
    }
  }

  // ---------------------------------------------------------------------
  // str.split fields and POSIX paths
  // ---------------------------------------------------------------------

  /** s.split(sep)[0]: the text before the first `sep`. */
  function FirstField(s: string, sep: char): string {
    if s == [] || s[0] == sep then [] else [s[0]] + FirstField(s[1..], sep)
  }

  /** s.split(sep)[-1]: the text after the last `sep`. */
  function LastField(s: string, sep: char): string {
    if s == [] || s[|s| - 1] == sep then [] else LastField(s[..|s| - 1], sep) + [s[|s| - 1]]
  }

  /** The first field is the longest prefix without `sep`: what follows it, if
      anything, is a `sep`. */
  lemma {:induction false} FirstFieldIsPrefixUpToSeparator(s: string, sep: char)
    ensures var r := FirstField(s, sep);
      sep !in r && r <= s && (|r| < |s| ==> s[|r|] == sep)
  {
    if s != [] && s[0] != sep {
      FirstFieldIsPrefixUpToSeparator(s[1..], sep);
    }
  }

  /** The last field is the longest suffix without `sep`: what precedes it, if
      anything, is a `sep`. */
  lemma {:induction false} LastFieldIsSuffixAfterSeparator(s: string, sep: char)
    ensures var r := LastField(s, sep);
      sep !in r && |r| <= |s| && r == s[|s| - |r|..] && (|r| < |s| ==> s[|s| - |r| - 1] == sep)
  {
    if s != [] && s[|s| - 1] != sep {
      LastFieldIsSuffixAfterSeparator(s[..|s| - 1], sep);
    }
  }

  /** os.path.split(p)[-1]: the last component of a POSIX path. */
  function Basename(p: string): string {
    LastField(p, '/')
  }

  /** os.path.join(a, b) on POSIX: an absolute `b` replaces `a`; otherwise one
      '/' separates them unless `a` is empty or already ends in '/'. */
  function Join(a: string, b: string): string {
    if |b| > 0 && b[0] == '/' then b
    else if a == [] || a[|a| - 1] == '/' then a + b
    else a + "/" + b
  }

  /** A string without `sep` is its own first and last field, also after a `sep`. */
  lemma FieldsWithoutSeparator(pre: string, b: string, sep: char)
    requires sep !in b
    ensures FirstField(b, sep) == b
    ensures LastField(b, sep) == b
    ensures LastField(pre + [sep] + b, sep) == b
  {
    var p := pre + [sep] + b;
    FirstFieldIsPrefixUpToSeparator(b, sep);
    LastFieldIsSuffixAfterSeparator(b, sep);
    LastFieldIsSuffixAfterSeparator(p, sep);
    assert p[|p| - |b| - 1] == sep;
  }

  /** Splitting what was joined: the last component of join(a, b) is b, for a
      single non-absolute component b. */
  lemma JoinThenBasename(a: string, b: string)
    requires |b| > 0 && '/' !in b
    ensures Basename(Join(a, b)) == b
  {
    if a == [] {
      assert Join(a, b) == b;
      FieldsWithoutSeparator([], b, '/');
    } else if a[|a| - 1] == '/' {
      assert Join(a, b) == a[..|a| - 1] + ['/'] + b;
      FieldsWithoutSeparator(a[..|a| - 1], b, '/');
    } else {
      assert Join(a, b) == a + ['/'] + b;
      FieldsWithoutSeparator(a, b, '/');
    }
  }

  // ---------------------------------------------------------------------
  // Experiment sequence numbers
  // ---------------------------------------------------------------------

  /** An entry the pattern "exp_*" matches. */
  predicate IsExpEntry(e: string) {
    |e| >= 4 && e[..4] == "exp_"
  }

  /** The number an "exp_*" entry carries: the text after the last '_' of its
      stem (the part of the name before the first '.'), read as an integer;
      None where that text is not an integer literal. */
  function ExpSuffix(e: string): Option<int> {
    ParseInt(LastField(FirstField(e, '.'), '_'))
  }

  /** The source reads the number from the base name of the path the glob
      returns, join(parent, e); for a directory entry e that base name is e. */
  lemma ExpSuffixOfGlobbedPath(parent: string, e: string)
    requires IsExpEntry(e) && '/' !in e
    ensures ParseInt(LastField(FirstField(Basename(Join(parent, e)), '.'), '_')) == ExpSuffix(e)
  {
    JoinThenBasename(parent, e);
  }

  /** ExpSuffix as a function value, for the scan. */
  function ExpNumbers(): string -> Option<int> {
    e => ExpSuffix(e)
  }

  /** What scanning a listing for its largest "exp_*" number yields: an error
      exactly when some such entry carries no number, None exactly when there is
      no such entry, and otherwise a number some entry carries and no entry
      exceeds. */
  ghost predicate IsMaxScan(entries: seq<string>, number: string -> Option<int>, r: Result<Option<int>>) {
    (r.Err? <==> exists e :: e in entries && IsExpEntry(e) && number(e).None?) &&
    (r.Err? ==> r.error == ValueError("could not convert string to float")) &&
    (r.Ok? ==> (r.value.None? <==> forall e :: e in entries ==> !IsExpEntry(e))) &&
    (r.Ok? && r.value.Some? ==>
      (exists e :: e in entries && IsExpEntry(e) && number(e) == r.value) &&
      (forall e :: e in entries && IsExpEntry(e) ==> number(e).value <= r.value.value))
  }

  /** The largest `number(e)` over the "exp_*" entries of a listing, scanned
      from the last entry back; what it yields is stated by IsMaxScan and proved
      in MaxExpNumberIsMaxScan. */
  function MaxExpNumber(entries: seq<string>, number: string -> Option<int>): (r: Result<Option<int>>)
    ensures r.Err? ==> r.error == ValueError("could not convert string to float")
  {
    if entries == [] then Ok(None)
    else
      var rest := MaxExpNumber(entries[..|entries| - 1], number);
      var last := entries[|entries| - 1];
      if rest.Err? || !IsExpEntry(last) then rest
      else match number(last)
        case None => Err(ValueError("could not convert string to float"))
        case Some(v) =>
          if rest.value.None? || rest.value.value < v then Ok(Some(v)) else rest
  }

  lemma {:induction false} MaxExpNumberIsMaxScan(entries: seq<string>, number: string -> Option<int>)
    ensures IsMaxScan(entries, number, MaxExpNumber(entries, number))
  {
    if entries != [] {
      var init, last := entries[..|entries| - 1], entries[|entries| - 1];
      assert entries == init + [last];
      MaxExpNumberIsMaxScan(init, number);
    }
  }

  /** At most one result fits the description of a scan. */
  lemma MaxScanUnique(entries: seq<string>, number: string -> Option<int>, r1: Result<Option<int>>, r2: Result<Option<int>>)
    requires IsMaxScan(entries, number, r1) && IsMaxScan(entries, number, r2)
    ensures r1 == r2
  {
    if r1.Ok? && r2.Ok? && r1.value.Some? && r2.value.Some? {
      var e1 :| e1 in entries && IsExpEntry(e1) && number(e1) == r1.value;
      var e2 :| e2 in entries && IsExpEntry(e2) && number(e2) == r2.value;
      assert number(e1).value <= r2.value.value;
      assert number(e2).value <= r1.value.value;
    }
  }

  /** The description of a scan mentions the listing only through membership. */
  lemma MaxScanSameMembers(a: seq<string>, b: seq<string>, number: string -> Option<int>, r: Result<Option<int>>)
    requires forall e :: e in a <==> e in b
    requires IsMaxScan(a, number, r)
    ensures IsMaxScan(b, number, r)
  {
  }

  /** The scan depends on which entries are listed, not on their order. */
  lemma MaxExpNumberIgnoresOrder(a: seq<string>, b: seq<string>, number: string -> Option<int>)
    requires multiset(a) == multiset(b)
    ensures MaxExpNumber(a, number) == MaxExpNumber(b, number)
  {
    assert forall e :: e in a <==> e in b by {
      forall e ensures e in a <==> e in b {
        assert e in a <==> e in multiset(a);
        assert e in b <==> e in multiset(b);
      }
    }
    MaxExpNumberIsMaxScan(a, number);
    MaxExpNumberIsMaxScan(b, number);
    MaxScanSameMembers(a, b, number, MaxExpNumber(a, number));
    MaxScanUnique(b, number, MaxExpNumber(a, number), MaxExpNumber(b, number));
  }

  /** The sequence number an Experiment takes: a non-negative request is kept;
      otherwise one more than the largest "exp_*" number in the listing of the
      parent folder, or 1 when there is no such entry. */
  function ResolveNumber(entries: seq<string>, requested: int): (r: Result<int>)
    ensures requested >= 0 ==> r == Ok(requested)
    ensures r.Err? ==> requested < 0 && r.error.ValueError?
  {
    if requested >= 0 then Ok(requested)
    else match MaxExpNumber(entries, ExpNumbers())
      case Err(x) => Err(x)
      case Ok(None) => Ok(1)
      case Ok(Some(m)) => Ok(m + 1)
  }

  /** An unset (negative) request fails exactly when some "exp_*" entry carries
      no number; otherwise it yields 1 when there is no "exp_*" entry, and else
      one more than a number some entry carries and no entry exceeds. */
  lemma ResolveNumberMeaning(entries: seq<string>, requested: int)
    requires requested < 0
    ensures ResolveNumber(entries, requested).Err? <==>
      exists e :: e in entries && IsExpEntry(e) && ExpSuffix(e).None?
    ensures ResolveNumber(entries, requested).Ok? && (forall e :: e in entries ==> !IsExpEntry(e)) ==>
      ResolveNumber(entries, requested).value == 1
    ensures ResolveNumber(entries, requested).Ok? && (exists e :: e in entries && IsExpEntry(e)) ==>
      var n := ResolveNumber(entries, requested).value;
      (exists e :: e in entries && IsExpEntry(e) && ExpSuffix(e) == Some(n - 1)) &&
      (forall e :: e in entries && IsExpEntry(e) ==> ExpSuffix(e).value < n)
  {
    MaxExpNumberIsMaxScan(entries, ExpNumbers());
  }

  /** The number an experiment takes does not depend on the listing order. */
  lemma ResolveNumberIgnoresOrder(a: seq<string>, b: seq<string>, requested: int)
    requires multiset(a) == multiset(b)
    ensures ResolveNumber(a, requested) == ResolveNumber(b, requested)
  {
    MaxExpNumberIgnoresOrder(a, b, ExpNumbers());
  }

  /** The folder name "exp_<n>": no '/', no '.', and `str(n)` after its only '_'. */
  lemma ExpFolderName(n: int)
    ensures IsExpEntry("exp_" + IntToString(n))
    ensures '/' !in "exp_" + IntToString(n) && '.' !in "exp_" + IntToString(n)
    ensures "exp_" + IntToString(n) == "exp" + ['_'] + IntToString(n) && '_' !in IntToString(n)
  {
    var s := IntToString(n);
    var e := "exp_" + s;
    assert e[..4] == "exp_";
    forall k | 0 <= k < |e| ensures e[k] != '.' && e[k] != '/' {
      if k >= 4 { assert e[k] == s[k - 4]; }
    }
  }

  /** What a later scan reads back from the folder of experiment n. */
  lemma ExpFolderSuffix(n: int)
    ensures IsExpEntry("exp_" + IntToString(n))
    ensures ExpSuffix("exp_" + IntToString(n)) == Some(n)
  {
    var s := IntToString(n);
    var e := "exp_" + s;
    ExpFolderName(n);
    FieldsWithoutSeparator([], e, '.');
    FieldsWithoutSeparator("exp", s, '_');
    ParseIntToString(n);
  }

  /** Once the folder of experiment n exists, a new experiment that scans the
      same parent gets a number above n. */
  lemma NextNumberExceedsExisting(entries: seq<string>, n: int)
    requires ResolveNumber(entries, -1).Ok?
    ensures ResolveNumber(entries + ["exp_" + IntToString(n)], -1).Ok?
    ensures ResolveNumber(entries + ["exp_" + IntToString(n)], -1).value > n
  {
    var e := "exp_" + IntToString(n);
    var grown := entries + [e];
    ExpFolderSuffix(n);
    ResolveNumberMeaning(entries, -1);
    ResolveNumberMeaning(grown, -1);
    assert e in grown;
    forall x | x in grown && IsExpEntry(x) ensures ExpSuffix(x).Some? {
      if x != e { assert x in entries; }
    }
    assert ExpSuffix(e).value < ResolveNumber(grown, -1).value;
  }


  /** The folder an experiment owns: "exp_<n>" joined to the parent. */
  function ExperimentPath(parent: string, n: int): (p: string)
    ensures Basename(p) == "exp_" + IntToString(n)
  {
    var name := "exp_" + IntToString(n);
    assert name[0] == 'e';
    assert '/' !in name by {
      var s := IntToString(n);
      forall k | 0 <= k < |name| ensures name[k] != '/' {
        if k >= 4 { assert name[k] == s[k - 4]; }
      }
    }
    JoinThenBasename(parent, name);
    Join(parent, name)
  }

  // ---------------------------------------------------------------------
  // The default-extension rule for image names
  // ---------------------------------------------------------------------

  /** What re.match(".*\..{3}$", name) accepts, stated as the pattern reads: a
      newline-free prefix, a '.', three newline-free characters, then the end of
      the text or a final newline. */
  ghost predicate MatchesExtensionPattern(name: string) {
    exists k :: 0 <= k && k + 4 <= |name| && name[k] == '.' && '\n' !in name[..k + 4] &&
      (k + 4 == |name| || (k + 5 == |name| && name[k + 4] == '\n'))
  }

  /** The same test computed directly: drop one final newline, then the text
      must be newline-free and have a '.' fourth from its end. */
  predicate HasExtension(name: string) {
    var body := if |name| > 0 && name[|name| - 1] == '\n' then name[..|name| - 1] else name;
    |body| >= 4 && body[|body| - 4] == '.' && '\n' !in body
  }

  lemma HasExtensionIsPattern(name: string)
    ensures HasExtension(name) <==> MatchesExtensionPattern(name)
  {
    var body := if |name| > 0 && name[|name| - 1] == '\n' then name[..|name| - 1] else name;
    if HasExtension(name) {
      var k := |body| - 4;
      assert name[..k + 4] == body;
    }
    if MatchesExtensionPattern(name) {
      var k :| 0 <= k && k + 4 <= |name| && name[k] == '.' && '\n' !in name[..k + 4] &&
        (k + 4 == |name| || (k + 5 == |name| && name[k + 4] == '\n'));
      if k + 4 == |name| {
        assert name[k + 3] in name[..k + 4];
        assert body == name;
        assert name[..k + 4] == name;
      } else {
        assert body == name[..k + 4];
      }
    }
  }

  /** The name an image is written under: ".jpg" is appended unless the name
      already carries a three-character extension. */
  function WithDefaultExtension(name: string): (r: string)
    ensures HasExtension(name) ==> r == name
    ensures !HasExtension(name) ==> r == name + ".jpg"
  {
    if HasExtension(name) then name else name + ".jpg"
  }

  /** For a name without newlines the rule always yields a name with an
      extension, so applying it twice is applying it once. */
  lemma DefaultExtensionIdempotent(name: string)
    requires '\n' !in name
    ensures HasExtension(WithDefaultExtension(name))
    ensures WithDefaultExtension(WithDefaultExtension(name)) == WithDefaultExtension(name)
  {
    if !HasExtension(name) {
      var r := name + ".jpg";
      assert r[|r| - 4] == '.';
      assert '\n' !in r by {
        forall k | 0 <= k < |r| ensures r[k] != '\n' {
          if k < |name| { assert r[k] == name[k]; }
        }
      }
    }
  }

  /** A newline inside the name defeats the pattern, so the rule appends ".jpg"
      on every application. */
  lemma DefaultExtensionNotIdempotentWithNewline()
    ensures WithDefaultExtension(WithDefaultExtension("a\nb")) != WithDefaultExtension("a\nb")
  {
    var once := WithDefaultExtension("a\nb");
    assert once[1] == '\n';
    assert !HasExtension(once) by {
      assert once[..|once|] == once;
    }
  }
}
