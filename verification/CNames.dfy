/**
 * The C names of compiled modules: a growing list of names, the name derived from a file name, and
 * the probing loop that makes a name fresh by a numeric suffix.
 */
module CNames {
  import opened Prelude

  /** js__pstrcpy into a buffer of the given size: at most size - 1 characters arrive. */
  function Copied(s: string, size: nat): (r: string)
    requires size > 0
    ensures |r| == Min(|s|, size - 1) && r <= s
  {
    s[..Min(|s|, size - 1)]
  }

  lemma CopiedGrows(s: string, c: char, size: nat)
    requires size > 0
    ensures Copied(s + [c], size) == if |Copied(s, size)| < size - 1 then Copied(s, size) + [c] else Copied(s, size)
  {
  }

  lemma CopiedWhole(s: string, size: nat)
    requires |s| < size
    ensures Copied(s, size) == s
  {
  }

  // ---------------------------------------------------------------- the derived name

  /** The part after the last occurrence of c, or everything. */
  function AfterLast(s: string, c: char): (r: string)
    ensures c !in r
    ensures r == s || Follows(s, c, r)
    ensures r == s ==> c !in s
  {
    if c !in s then s
    else if s[|s| - 1] == c then assert s[|s|..] == []; []
    else
      AfterLastStep(s[..|s| - 1], s[|s| - 1], c);
      assert s == s[..|s| - 1] + [s[|s| - 1]];
      AfterLast(s[..|s| - 1], c) + [s[|s| - 1]]
  }

  /** r is what follows some occurrence of c in s. */
  predicate Follows(s: string, c: char, r: string) {
    |r| < |s| && s[|s| - |r| - 1] == c && r == s[|s| - |r|..]
  }

  lemma AfterLastStep(s: string, d: char, c: char)
    ensures forall r :: Follows(s, c, r) ==> Follows(s + [d], c, r + [d])
  {
  }

  /** The part before the last occurrence of c, or everything. */
  function BeforeLast(s: string, c: char): (r: string)
    ensures r == s || (r < s && s[|r|] == c && c !in s[|r| + 1..])
    ensures r == s ==> c !in s
  {
    if c !in s then s
    else if s[|s| - 1] == c then s[..|s| - 1]
    else
      var r := BeforeLast(s[..|s| - 1], c);
      assert s[|r| + 1..] == s[..|s| - 1][|r| + 1..] + [s[|s| - 1]];
      r
  }

  const CAPITALS := "ABCDEFGHIJKLMNOPQRSTUVWXYZ"
  const LETTERS := "abcdefghijklmnopqrstuvwxyz"
  const DIGITS := "0123456789"

  /** Section 6.4.2.1 of ISO C: a letter or underscore, then letters, digits and underscores. */
  predicate IsIdentifier(s: string) {
    && s != [] && s[0] !in DIGITS
    && forall i :: 0 <= i < |s| ==> IsNameChar(s[i])
  }

  predicate IsNameChar(c: char) {
    c in CAPITALS || c in LETTERS || c in DIGITS || c == '_'
  }

  /** The characters get_c_name keeps. */
  predicate IsAlphanumeric(c: char) {
    '0' <= c <= '9' || 'A' <= c <= 'Z' || 'a' <= c <= 'z'
  }

  lemma InCapitals(c: char)
    ensures c in CAPITALS <==> 'A' <= c <= 'Z'
  {
    if 'A' <= c <= 'Z' {
      assert CAPITALS[c as int - 'A' as int] == c;
    }
  }

  lemma InLetters(c: char)
    ensures c in LETTERS <==> 'a' <= c <= 'z'
  {
    if 'a' <= c <= 'z' {
      assert LETTERS[c as int - 'a' as int] == c;
    }
  }

  lemma InDigits(c: char)
    ensures c in DIGITS <==> '0' <= c <= '9'
  {
    if '0' <= c <= '9' {
      assert DIGITS[c as int - '0' as int] == c;
    }
  }

  lemma AlphanumericMeaning(c: char)
    ensures IsAlphanumeric(c) <==> c in CAPITALS || c in LETTERS || c in DIGITS
  {
    InCapitals(c);
    InLetters(c);
    InDigits(c);
  }

  function Sanitized(s: string): (r: string)
    ensures |r| == |s|
    ensures forall i :: 0 <= i < |s| ==> r[i] == if IsAlphanumeric(s[i]) then s[i] else '_'
  {
    seq(|s|, i requires 0 <= i < |s| => if IsAlphanumeric(s[i]) then s[i] else '_')
  }

  /** What follows an identifier prefix keeps it an identifier, however short the buffer. */
  lemma IdentifierKept(prefix: string, s: string, size: nat)
    requires size > 1 && IsIdentifier(prefix)
    ensures IsIdentifier(Copied(prefix + Sanitized(s), size))
  {
    forall i | 0 <= i < |s| ensures IsNameChar(Sanitized(s)[i]) {
      AlphanumericMeaning(s[i]);
    }
  }

  /** The file's own name without directory and extension. */
  function Stem(file: string): string {
    BeforeLast(AfterLast(file, '/'), '.')
  }

  /** get_c_name for a buffer of the given size. */
  method GetCName(prefix: string, file: string, size: nat) returns (name: string)
    requires size > 0
    ensures name == Copied(prefix + Sanitized(Stem(file)), size)
    ensures size > 1 && IsIdentifier(prefix) ==> IsIdentifier(name)
  {
    name := AppendSanitized(prefix, Stem(file), size);
    if size > 1 && IsIdentifier(prefix) {
      IdentifierKept(prefix, Stem(file), size);
    }
  }

  method AppendSanitized(prefix: string, p: string, size: nat) returns (name: string)
    requires size > 0
    ensures name == Copied(prefix + Sanitized(p), size)
  {
    name := Copied(prefix, size);
    ghost var all := prefix + Sanitized(p);
    for i := 0 to |p|
      invariant name == Copied(all[..|prefix| + i], size)
    {
      var c := p[i];
      if !IsAlphanumeric(c) {
        c := '_';
      }
      assert all[..|prefix| + i + 1] == all[..|prefix| + i] + [c];
      CopiedGrows(all[..|prefix| + i], c, size);
      if |name| < size - 1 {
        name := name + [c];
      }
    }
    assert all[..|prefix| + |p|] == all;
  }

  // ---------------------------------------------------------------- decimal suffixes

  function Digit(d: nat): char
    requires d < 10
  {
    '0' + d as char
  }

  /** The digits printed for %d. */
  function Decimal(n: nat): (r: string)
    ensures |r| > 0
  {
    if n < 10 then [Digit(n)] else Decimal(n / 10) + [Digit(n % 10)]
  }

  /** The number a digit string stands for. */
  function Value(s: string): int {
    if s == [] then 0 else 10 * Value(s[..|s| - 1]) + (s[|s| - 1] as int - '0' as int)
  }

  lemma {:induction false} ValueOfDecimal(n: nat)
    ensures Value(Decimal(n)) == n
  {
    if n < 10 {
      assert [Digit(n)][..0] == [];
    } else {
      ValueOfDecimal(n / 10);
      assert Decimal(n)[..|Decimal(n)| - 1] == Decimal(n / 10);
    }
  }

  function Power10(k: nat): nat {
    if k == 0 then 1 else 10 * Power10(k - 1)
  }

  lemma {:induction false} DecimalLength(n: nat, k: nat)
    requires k > 0 && n < Power10(k)
    ensures |Decimal(n)| <= k
  {
    if n >= 10 {
      assert k > 1 by {
        assert Power10(1) == 10 * Power10(0);
      }
      DecimalLength(n / 10, k - 1);
    }
  }

  // ---------------------------------------------------------------- fresh names

  const INT_MAX := 0x7FFF_FFFF

  function Candidate(base: string, k: nat): string {
    base + "_" + Decimal(k)
  }

  lemma {:induction false} DecimalDigits(n: nat)
    ensures forall i :: 0 <= i < |Decimal(n)| ==> Decimal(n)[i] in DIGITS
  {
    if n < 10 {
      assert Digit(n) == DIGITS[n];
    } else {
      DecimalDigits(n / 10);
      assert Digit(n % 10) == DIGITS[n % 10];
    }
  }

  /** A candidate is the base, an underscore and the digits of its number; it is an identifier if the base is one. */
  lemma CandidateShape(base: string, k: nat)
    ensures var c := Candidate(base, k);
            && base < c && c[|base|] == '_' && Value(c[|base| + 1..]) == k
            && (forall i :: |base| < i < |c| ==> c[i] in DIGITS)
            && (IsIdentifier(base) ==> IsIdentifier(c))
  {
    var c := Candidate(base, k);
    DecimalDigits(k);
    ValueOfDecimal(k);
    assert c[|base| + 1..] == Decimal(k);
    forall i | |base| < i < |c| ensures c[i] in DIGITS {
      assert c[i] == Decimal(k)[i - |base| - 1];
    }
  }

  lemma CandidatesDiffer(base: string, j: nat, k: nat)
    requires Candidate(base, j) == Candidate(base, k)
    ensures j == k
  {
    assert Candidate(base, j)[|base| + 1..] == Decimal(j);
    assert Candidate(base, k)[|base| + 1..] == Decimal(k);
    ValueOfDecimal(j);
    ValueOfDecimal(k);
  }

  ghost function NamesIn(names: seq<string>): (r: set<string>)
    ensures |r| <= |names|
    ensures forall s :: s in r <==> s in names
  {
    if names == [] then {}
    else
      var n := |names| - 1;
      assert names == names[..n] + [names[n]];
      NamesIn(names[..n]) + {names[n]}
  }

  ghost function Candidates(base: string, k: nat): (r: set<string>)
    ensures |r| == k
    ensures forall s :: s in r <==> exists j :: 1 <= j <= k && s == Candidate(base, j)
  {
    if k == 0 then {}
    else
      var r := Candidates(base, k - 1);
      assert Candidate(base, k) !in r by {
        if Candidate(base, k) in r {
          var j :| 1 <= j <= k - 1 && Candidate(base, k) == Candidate(base, j);
          CandidatesDiffer(base, k, j);
        }
      }
      r + {Candidate(base, k)}
  }

  lemma SubsetSize<A>(a: set<A>, b: set<A>)
    requires a <= b
    ensures |a| <= |b|
  {
    assert b == a + (b - a);
  }

  /** Pigeonhole: if the first k candidates are all taken, the list has at least k names. */
  lemma TakenCandidates(names: seq<string>, base: string, k: nat)
    requires forall j: nat :: 1 <= j <= k ==> Candidate(base, j) in names
    ensures k <= |names|
  {
    SubsetSize(Candidates(base, k), NamesIn(names));
  }

  /** The name cut so that a suffix still fits into the buffer. */
  function Cut(cname: string, size: nat): string
    requires size >= 16
  {
    cname[..Min(|cname|, size - 16)]
  }

  /** The k-th candidate is free and all before it are taken, so that k is at most one more than the list is long. */
  ghost predicate FirstFree(names: seq<string>, base: string, k: nat, name: string) {
    && 1 <= k <= |names| + 1 && name == Candidate(base, k) && name !in names
    && forall j: nat :: 1 <= j < k ==> Candidate(base, j) in names
  }

  ghost predicate Distinct(names: seq<string>) {
    forall i, j :: 0 <= i < j < |names| ==> names[i] != names[j]
  }

  lemma DistinctAppend(names: seq<string>, name: string)
    ensures Distinct(names) ==> (Distinct(names + [name]) <==> name !in names)
  {
    if name in names {
      var i :| 0 <= i < |names| && names[i] == name;
      assert (names + [name])[i] == (names + [name])[|names|];
    }
  }

  /** namelist_t */
  class NameList {
    var buffer: array<string>
    var count: nat

    ghost predicate Valid()
      reads this
    {
      count <= buffer.Length
    }

    ghost function Names(): seq<string>
      requires Valid()
      reads this, buffer
    {
      buffer[..count]
    }

    constructor ()
      ensures Valid() && fresh(buffer) && Names() == []
    {
      buffer := new string[0];
      count := 0;
    }

    /** namelist_add: the array grows by half and four when it is full. */
    method Add(name: string)
      requires Valid()
      modifies this, buffer
      ensures Valid() && (buffer == old(buffer) || fresh(buffer))
      ensures Names() == old(Names()) + [name]
    {
      if count == buffer.Length {
        var bigger := new string[buffer.Length + buffer.Length / 2 + 4];
        for i := 0 to count
          invariant fresh(bigger) && unchanged(this) && unchanged(buffer)
          invariant bigger[..i] == buffer[..i]
        {
          bigger[i] := buffer[i];
        }
        buffer := bigger;
      }
      buffer[count] := name;
      count := count + 1;
    }

    /** namelist_find */
    method Contains(name: string) returns (found: bool)
      requires Valid()
      ensures found <==> name in Names()
    {
      for i := 0 to count
        invariant name !in buffer[..i]
      {
        if buffer[i] == name {
          return true;
        }
      }
      return false;
    }

    /**
     * find_unique_cname for a buffer of `size` bytes: the loop ends after at most count + 1 probes
     * with the first free candidate, which the buffer holds in full.
     */
    method FindUnique(cname: string, size: nat) returns (name: string)
      requires Valid() && 32 <= size <= 1024 && count < INT_MAX
      ensures name !in Names() && |name| < size
      ensures exists k :: FirstFree(Names(), Cut(cname, size), k, name)
      ensures IsIdentifier(cname) ==> IsIdentifier(name)
    {
      var base := cname;
      if |cname| > size - 16 {
        base := cname[..size - 16];
      }
      var k := 1;
      while true
        invariant 1 <= k <= count + 1
        invariant forall j: nat :: 1 <= j < k ==> Candidate(base, j) in Names()
        decreases count + 1 - k
      {
        name := Candidate(base, k);
        var found := Contains(name);
        if !found {
          break;
        }
        TakenCandidates(Names(), base, k);
        k := k + 1;
      }
      SuffixFits(k);
      CandidateShape(base, k);
      assert base == Cut(cname, size);
      assert FirstFree(Names(), base, k, name);
      assert Copied(name, size) == name;
    }

    /** The naming step of jsc_module_loader: the module's name is new. */
    method LoadModule(prefix: string, file: string) returns (name: string)
      requires Valid() && count < INT_MAX
      modifies this, buffer
      ensures Valid() && (buffer == old(buffer) || fresh(buffer))
      ensures name !in old(Names()) && Names() == old(Names()) + [name] && |name| < 1000
      ensures IsIdentifier(prefix) ==> IsIdentifier(name)
      ensures
        var plain := Copied(prefix + Sanitized(Stem(file)), 1000);
        if plain !in old(Names()) then name == plain else exists k :: FirstFree(old(Names()), Cut(plain, 1000), k, name)
    {
      name := GetCName(prefix, file, 1000);
      var found := Contains(name);
      if found {
        name := FindUnique(name, 1000);
      }
      Add(name);
    }

    /** The naming step of compile_file: the name is added without looking at the list. */
    method CompileFile(prefix: string, file: string, given: Option<string>) returns (name: string)
      requires Valid()
      modifies this, buffer
      ensures Valid() && (buffer == old(buffer) || fresh(buffer)) && Names() == old(Names()) + [name]
      ensures name == Copied(if given.Some? then given.value else prefix + Sanitized(Stem(file)), 1024)
      ensures Distinct(old(Names())) ==> (Distinct(Names()) <==> name !in old(Names()))
    {
      if given.Some? {
        name := Copied(given.value, 1024);
      } else {
        name := GetCName(prefix, file, 1024);
      }
      DistinctAppend(Names(), name);
      Add(name);
    }
  }

  lemma SuffixFits(k: nat)
    requires k <= INT_MAX
    ensures |Decimal(k)| <= 10
  {
    assert Power10(10) == 10_000_000_000 by {
      assert Power10(5) == 100_000;
      assert Power10(6) == 10 * Power10(5);
      assert Power10(7) == 10 * Power10(6);
      assert Power10(8) == 10 * Power10(7);
      assert Power10(9) == 10 * Power10(8);
    }
    DecimalLength(k, 10);
  }

  // ---------------------------------------------------------------- runs

  /** A name is added for a module that is loaded, or for a file that is compiled, possibly under a given name. */
  datatype Step = Load(file: string) | Compile(file: string, given: Option<string>)

  /** The name a step asks for, before the list is looked at. */
  function Derived(prefix: string, step: Step): string {
    match step
    case Load(file) => Copied(prefix + Sanitized(Stem(file)), 1000)
    case Compile(file, given) => Copied(if given.Some? then given.value else prefix + Sanitized(Stem(file)), 1024)
  }

  /** What each step of a run added, given the names before it. */
  ghost predicate NamedBySteps(prefix: string, steps: seq<Step>, names: seq<string>) {
    && |names| == |steps|
    && (forall i :: 0 <= i < |steps| && steps[i].Load? ==> names[i] !in names[..i])
    && (forall i :: 0 <= i < |steps| && (steps[i].Compile? || Derived(prefix, steps[i]) !in names[..i]) ==> names[i] == Derived(prefix, steps[i]))
  }

  /** In every run the names of loaded modules are pairwise distinct. */
  lemma LoadedDistinct(prefix: string, steps: seq<Step>, names: seq<string>, i: nat, j: nat)
    requires NamedBySteps(prefix, steps, names) && i < j < |steps| && steps[j].Load?
    ensures names[i] != names[j]
  {
    assert names[..j][i] in names[..j];
  }

  /** All names of a run are distinct exactly when no compiled file's name was in use when it was compiled. */
  lemma DistinctIffFreshCompiles(prefix: string, steps: seq<Step>, names: seq<string>)
    requires NamedBySteps(prefix, steps, names)
    ensures Distinct(names) <==> forall j :: 0 <= j < |steps| && steps[j].Compile? ==> Derived(prefix, steps[j]) !in names[..j]
  {
    if Distinct(names) {
      forall j | 0 <= j < |steps| && steps[j].Compile? ensures Derived(prefix, steps[j]) !in names[..j] {
        assert forall i :: 0 <= i < j ==> names[..j][i] != names[j];
      }
    } else {
      var i, j :| 0 <= i < j < |names| && names[i] == names[j];
      assert names[..j][i] == names[j];
    }
  }

  /** Any run: loads and compilations in any order. */
  method NameAll(prefix: string, steps: seq<Step>) returns (list: NameList)
    requires |steps| <= INT_MAX
    ensures list.Valid() && NamedBySteps(prefix, steps, list.Names())
    ensures forall i, j :: 0 <= i < j < |steps| && steps[i].Load? && steps[j].Load? ==> list.Names()[i] != list.Names()[j]
    ensures Distinct(list.Names()) <==>
      forall j :: 0 <= j < |steps| && steps[j].Compile? ==> Derived(prefix, steps[j]) !in list.Names()[..j]
  {
    list := new NameList();
    for k := 0 to |steps|
      invariant list.Valid() && fresh(list) && fresh(list.buffer)
      invariant NamedBySteps(prefix, steps[..k], list.Names())
    {
      ghost var names := list.Names();
      var name := NameOne(list, prefix, steps[k]);
      StepNamed(prefix, steps[..k], names, steps[k], name);
      assert steps[..k + 1] == steps[..k] + [steps[k]];
    }
    assert steps[..|steps|] == steps;
    DistinctIffFreshCompiles(prefix, steps, list.Names());
    LoadedAllDistinct(prefix, steps, list.Names());
  }

  method NameOne(list: NameList, prefix: string, step: Step) returns (name: string)
    requires list.Valid() && list.count < INT_MAX
    modifies list, list.buffer
    ensures list.Valid() && (list.buffer == old(list.buffer) || fresh(list.buffer)) && list.Names() == old(list.Names()) + [name]
    ensures step.Load? ==> name !in old(list.Names())
    ensures step.Compile? || Derived(prefix, step) !in old(list.Names()) ==> name == Derived(prefix, step)
  {
    match step {
      case Load(file) => name := list.LoadModule(prefix, file);
      case Compile(file, given) => name := list.CompileFile(prefix, file, given);
    }
  }

  lemma LoadedAllDistinct(prefix: string, steps: seq<Step>, names: seq<string>)
    requires NamedBySteps(prefix, steps, names)
    ensures forall i, j :: 0 <= i < j < |steps| && steps[i].Load? && steps[j].Load? ==> names[i] != names[j]
  {
    forall i, j | 0 <= i < j < |steps| && steps[i].Load? && steps[j].Load? ensures names[i] != names[j] {
      LoadedDistinct(prefix, steps, names, i, j);
    }
  }

  lemma StepNamed(prefix: string, steps: seq<Step>, names: seq<string>, step: Step, name: string)
    requires NamedBySteps(prefix, steps, names)
    requires step.Load? ==> name !in names
    requires step.Compile? || Derived(prefix, step) !in names ==> name == Derived(prefix, step)
    ensures NamedBySteps(prefix, steps + [step], names + [name])
  {
    var steps', names' := steps + [step], names + [name];
    forall i | 0 <= i < |steps'|
      ensures steps'[i].Load? ==> names'[i] !in names'[..i]
      ensures steps'[i].Compile? || Derived(prefix, steps'[i]) !in names'[..i] ==> names'[i] == Derived(prefix, steps'[i])
    {
      if i < |steps| {
        assert names'[..i] == names[..i];
      } else {
        assert names'[..i] == names;
      }
    }
  }

  /** A file that imports a module of the same stem is named after it, and both get one name. */
  method NameTwice(prefix: string, file: string, imported: string) returns (list: NameList)
    requires Stem(file) == Stem(imported) && |prefix| + |Stem(file)| < 1000
    ensures list.Valid() && |list.Names()| == 2 && !Distinct(list.Names())
  {
    list := new NameList();
    ghost var plain := prefix + Sanitized(Stem(file));
    CopiedWhole(plain, 1000);
    CopiedWhole(plain, 1024);
    var first := list.LoadModule(prefix, imported);
    ghost var names := list.Names();
    assert names == [first];
    var second := list.CompileFile(prefix, file, None);
    assert list.Names()[0] == list.Names()[1];
  }

  /** For instance two files called a.js in different directories. */
  lemma SameStem()
    ensures Stem("lib/a.js") == Stem("a.js") == "a"
  {
    LastUnique("lib/a.js", '/', "a.js");
    StemUnique("a.js", "a");
    assert AfterLast("a.js", '/') == "a.js";
  }

  /** The part after the last separator is determined by ending the string, following a separator and holding none. */
  lemma LastUnique(s: string, c: char, r: string)
    requires Follows(s, c, r) && c !in r
    ensures AfterLast(s, c) == r
  {
    var l := AfterLast(s, c);
    assert s[|s| - |r| - 1] in s;
    assert r[|r| - Min(|l|, |r|)..] == l[|l| - Min(|l|, |r|)..];
  }

  lemma StemUnique(s: string, r: string)
    requires r < s && s[|r|] == '.' && '.' !in s[|r| + 1..]
    ensures BeforeLast(s, '.') == r
  {
    var l := BeforeLast(s, '.');
  }

  // ---------------------------------------------------------------- identifiers in the output

  /** output_object_code declares the name itself and the name with _size appended. */
  predicate Declares(name: string, identifier: string) {
    identifier == name || identifier == name + "_size"
  }

  /** Two modules of different names declare a common identifier exactly when one name is the other's size variable. */
  lemma IdentifiersClash(a: string, b: string)
    requires a != b
    ensures (exists id :: Declares(a, id) && Declares(b, id)) <==> b == a + "_size" || a == b + "_size"
  {
    if b == a + "_size" {
      assert Declares(a, b) && Declares(b, b);
    } else if a == b + "_size" {
      assert Declares(a, a) && Declares(b, a);
    } else {
      SizesDiffer(a, b);
    }
  }

  /** Loading a module and one whose stem has _size appended: two names, one identifier declared by both. */
  method DeclareTwice(prefix: string, file: string, other: string) returns (list: NameList)
    requires Stem(other) == Stem(file) + "_size" && |prefix| + |Stem(other)| < 1000
    ensures list.Valid() && Distinct(list.Names()) && |list.Names()| == 2
    ensures var id := prefix + Sanitized(Stem(file)) + "_size"; Declares(list.Names()[0], id) && Declares(list.Names()[1], id)
  {
    list := new NameList();
    var stem := Stem(file);
    ghost var plain := prefix + Sanitized(stem);
    assert Sanitized(stem + "_size") == Sanitized(stem) + "_size";
    ghost var sized := prefix + Sanitized(Stem(other));
    assert sized == plain + "_size";
    assert Copied(plain, 1000) == plain && Copied(sized, 1000) == sized;
    var first := list.LoadModule(prefix, file);
    assert list.Names() == [plain];
    var second := list.LoadModule(prefix, other);
    assert list.Names() == [plain, sized];
  }

  /** A script in the current directory has its name without the extension as its stem. */
  lemma ScriptStem(stem: string)
    requires '/' !in stem
    ensures Stem(stem + ".js") == stem
  {
    var file := stem + ".js";
    assert '/' !in file;
    assert file[|stem|] == '.' && file[|stem| + 1..] == "js";
    StemUnique(file, stem);
  }

  /** For instance a.js and a_size.js. */
  lemma SizeStem()
    ensures Stem("a" + ".js") == "a" && Stem("a_size" + ".js") == "a" + "_size"
  {
    ScriptStem("a");
    ScriptStem("a_size");
  }

  lemma SizesDiffer(a: string, b: string)
    ensures a + "_size" == b + "_size" ==> a == b
  {
    assert (a + "_size")[..|a|] == a && |a + "_size"| == |a| + 5;
    assert (b + "_size")[..|b|] == b && |b + "_size"| == |b| + 5;
  }
}
