/**
  The key of a stored file: workspaces/W/projects/P/tasks/T/files/F, printed by a template, with the three ids in
  decimal and an arbitrary string at the end. The parser below shows that a key can be read in one way only.
*/
module StorageKeys {
  import opened Basics

  datatype Key = Key(workspace: nat, project: nat, task: nat, file: string)

  function Digit(d: nat): char
    requires d < 10
  {
    ('0' as int + d) as char
  }

  function Decimal(n: nat): string {
    if n < 10 then [Digit(n)] else Decimal(n / 10) + [Digit(n % 10)]
  }

  function Field(word: string, n: nat, rest: string): string {
    word + (Decimal(n) + rest)
  }

  function PrintTask(task: nat, file: string): string {
    Field("/tasks/", task, "/files/" + file)
  }

  function PrintProject(project: nat, task: nat, file: string): string {
    Field("/projects/", project, PrintTask(task, file))
  }

  function Print(k: Key): string {
    Field("workspaces/", k.workspace, PrintProject(k.project, k.task, k.file))
  }

  // ---------------------------------------------------------------- reading a key

  predicate IsDigit(c: char) {
    '0' <= c <= '9'
  }

  predicate Digits(s: string) {
    forall i :: 0 <= i < |s| ==> IsDigit(s[i])
  }

  function Number(s: string): nat
    requires Digits(s)
  {
    if s == [] then 0 else Number(s[..|s| - 1]) * 10 + (s[|s| - 1] as int - '0' as int)
  }

  /** The length of the longest prefix of digits. */
  function Run(s: string): (n: nat)
    ensures n <= |s| && Digits(s[..n]) && (n < |s| ==> !IsDigit(s[n]))
  {
    if s == [] || !IsDigit(s[0]) then 0
    else
      var n := 1 + Run(s[1..]);
      assert forall i :: 1 <= i < n ==> s[i] == s[1..][..n - 1][i - 1];
      n
  }

  predicate Canonical(s: string) {
    s != [] && Digits(s) && (|s| > 1 ==> s[0] != '0')
  }

  /** A number without leading zeros, and what follows it. */
  function ReadNumber(s: string): Option<(nat, string)> {
    var n := Run(s);
    if Canonical(s[..n]) then Some((Number(s[..n]), s[n..])) else None
  }

  function ReadWord(s: string, word: string): Option<string> {
    if word <= s then Some(s[|word|..]) else None
  }

  function ReadField(s: string, word: string): Option<(nat, string)> {
    var rest := ReadWord(s, word);
    if rest.None? then None else ReadNumber(rest.value)
  }

  function ParseTask(s: string): Option<(nat, string)> {
    var t := ReadField(s, "/tasks/");
    if t.None? then None
    else
      var f := ReadWord(t.value.1, "/files/");
      if f.None? then None else Some((t.value.0, f.value))
  }

  function ParseProject(s: string): Option<(nat, nat, string)> {
    var p := ReadField(s, "/projects/");
    if p.None? then None
    else
      var t := ParseTask(p.value.1);
      if t.None? then None else Some((p.value.0, t.value.0, t.value.1))
  }

  function Parse(s: string): Option<Key> {
    var w := ReadField(s, "workspaces/");
    if w.None? then None
    else
      var p := ParseProject(w.value.1);
      if p.None? then None else Some(Key(w.value.0, p.value.0, p.value.1, p.value.2))
  }

  // ---------------------------------------------------------------- numbers

  lemma {:induction false} DecimalReads(n: nat)
    ensures Canonical(Decimal(n)) && Number(Decimal(n)) == n && (Decimal(n)[0] == '0' ==> n == 0)
  {
    if n >= 10 {
      DecimalReads(n / 10);
      var s := Decimal(n);
      assert s[..|s| - 1] == Decimal(n / 10);
    } else {
      assert Decimal(n)[..0] == [];
    }
  }

  lemma {:induction false} NumberPrints(s: string)
    requires Canonical(s)
    ensures Decimal(Number(s)) == s
    ensures s[0] != '0' ==> Number(s) > 0
    decreases |s|
  {
    var init, last := s[..|s| - 1], s[|s| - 1] as int - '0' as int;
    assert s == init + [s[|s| - 1]];
    if |s| > 1 {
      NumberPrints(init);
      assert Number(s) / 10 == Number(init) && Number(s) % 10 == last;
    }
  }

  /** A run of digits ends where the digits end. */
  lemma {:induction false} RunOf(digits: string, rest: string)
    requires Digits(digits) && (rest == [] || !IsDigit(rest[0]))
    ensures Run(digits + rest) == |digits|
  {
    if digits == [] {
      assert digits + rest == rest;
    } else {
      assert (digits + rest)[1..] == digits[1..] + rest;
      RunOf(digits[1..], rest);
    }
  }

  // ---------------------------------------------------------------- fields

  lemma FieldReads(word: string, n: nat, rest: string)
    requires rest != [] && !IsDigit(rest[0])
    ensures ReadField(Field(word, n, rest), word) == Some((n, rest))
  {
    var s := Decimal(n) + rest;
    assert (word + s)[|word|..] == s;
    DecimalReads(n);
    RunOf(Decimal(n), rest);
    assert s[..|Decimal(n)|] == Decimal(n) && s[|Decimal(n)|..] == rest;
  }

  lemma FieldPrints(s: string, word: string)
    requires ReadField(s, word).Some?
    ensures s == Field(word, ReadField(s, word).value.0, ReadField(s, word).value.1)
  {
    var rest := s[|word|..];
    assert s == word + rest;
    var n := Run(rest);
    assert rest == rest[..n] + rest[n..];
    NumberPrints(rest[..n]);
  }

  // ---------------------------------------------------------------- keys

  /** The key in full, and the decimal of an id: its digits without leading zeros, in order of their weight. */
  lemma KeySpelled(k: Key)
    ensures Print(k) == "workspaces/" + (Decimal(k.workspace) + ("/projects/" + (Decimal(k.project)
                        + ("/tasks/" + (Decimal(k.task) + ("/files/" + k.file))))))
  {
  }

  lemma TaskInverts(task: nat, file: string)
    ensures ParseTask(PrintTask(task, file)) == Some((task, file))
  {
    var files := "/files/" + file;
    FieldReads("/tasks/", task, files);
    assert files[|"/files/"|..] == file;
  }

  lemma ProjectInverts(project: nat, task: nat, file: string)
    ensures ParseProject(PrintProject(project, task, file)) == Some((project, task, file))
  {
    FieldReads("/projects/", project, PrintTask(task, file));
    TaskInverts(task, file);
  }

  /** Every key is read back, whatever the file id, slashes and digits included. */
  lemma ParseInvertsPrint(k: Key)
    ensures Parse(Print(k)) == Some(k)
  {
    FieldReads("workspaces/", k.workspace, PrintProject(k.project, k.task, k.file));
    ProjectInverts(k.project, k.task, k.file);
  }

  lemma TaskPrints(s: string)
    requires ParseTask(s).Some?
    ensures PrintTask(ParseTask(s).value.0, ParseTask(s).value.1) == s
  {
    FieldPrints(s, "/tasks/");
    var rest := ReadField(s, "/tasks/").value.1;
    assert rest == "/files/" + rest[|"/files/"|..];
  }

  lemma ProjectPrints(s: string)
    requires ParseProject(s).Some?
    ensures var (p, t, f) := ParseProject(s).value; PrintProject(p, t, f) == s
  {
    FieldPrints(s, "/projects/");
    TaskPrints(ReadField(s, "/projects/").value.1);
  }

  /** Only printed keys are read. */
  lemma PrintInvertsParse(s: string)
    requires Parse(s).Some?
    ensures Print(Parse(s).value) == s
  {
    FieldPrints(s, "workspaces/");
    ProjectPrints(ReadField(s, "workspaces/").value.1);
  }

  /** Two files share a key only if they agree in workspace, project, task and file id. */
  lemma PrintIsInjective(k: Key, l: Key)
    ensures Print(k) == Print(l) <==> k == l
  {
    ParseInvertsPrint(k);
    ParseInvertsPrint(l);
  }

  // ---------------------------------------------------------------- what the tree relies on

  /** A way to write keys, with the reader that makes it unambiguous. */
  datatype Codec = Codec(encode: Key -> string, decode: string -> Option<Key>)

  ghost predicate Faithful(codec: Codec) {
    && (forall k: Key :: codec.decode(codec.encode(k)) == Some(k))
    && (forall s: string :: codec.decode(s).Some? ==> codec.encode(codec.decode(s).value) == s)
  }

  /** The template of the storage service. */
  function PathKeys(): Codec {
    Codec((k: Key) => Print(k), (s: string) => Parse(s))
  }

  lemma PathKeysFaithful()
    ensures Faithful(PathKeys())
  {
    forall k: Key ensures PathKeys().decode(PathKeys().encode(k)) == Some(k) {
      ParseInvertsPrint(k);
    }
    forall s: string | PathKeys().decode(s).Some? ensures PathKeys().encode(PathKeys().decode(s).value) == s {
      PrintInvertsParse(s);
    }
  }
}
