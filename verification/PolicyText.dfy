/** The text of a bucket's MinIO policy (pkg/mc/minio.go:17-49) and the
    comma-joined policy names of a user. */
module PolicyText {

  // ---------------------------------------------------------------- compaction

  /** Where a scan of JSON text stands: between tokens, in a string, or just
      after a backslash in a string. */
  datatype Mode = Outside | Inside | Escaped

  /** Insignificant whitespace (section 2 of RFC 8259). */
  predicate IsSpace(c: char) {
    c == ' ' || c == '\t' || c == '\n' || c == '\r'
  }

  function Next(m: Mode, c: char): Mode {
    match m
    case Outside => if c == '"' then Inside else Outside
    case Inside => if c == '"' then Outside else if c == '\\' then Escaped else Inside
    case Escaped => Inside
  }

  function End(s: string, m: Mode): Mode {
    if s == "" then m else End(s[1..], Next(m, s[0]))
  }

  function Kept(c: char, m: Mode): string {
    if m == Outside && IsSpace(c) then "" else [c]
  }

  /** json.Compact on well-formed text: drops whitespace outside strings. */
  function Compact(s: string, m: Mode): string {
    if s == "" then ""
    else Kept(s[0], m) + Compact(s[1..], Next(m, s[0]))
  }

  lemma {:induction false} EndConcat(a: string, b: string, m: Mode)
    ensures End(a + b, m) == End(b, End(a, m))
  {
    if a == "" {
      assert a + b == b;
    } else {
      assert (a + b)[0] == a[0] && (a + b)[1..] == a[1..] + b;
      EndConcat(a[1..], b, Next(m, a[0]));
    }
  }

  lemma CompactCons(c: char, s: string, m: Mode)
    ensures Compact([c] + s, m) == Kept(c, m) + Compact(s, Next(m, c))
  {
    assert ([c] + s)[1..] == s;
  }

  lemma Associative<T>(a: seq<T>, b: seq<T>, c: seq<T>)
    ensures (a + b) + c == a + (b + c)
  {
  }

  lemma {:induction false} CompactConcat(a: string, b: string, m: Mode)
    ensures End(a + b, m) == End(b, End(a, m))
    ensures Compact(a + b, m) == Compact(a, m) + Compact(b, End(a, m))
  {
    EndConcat(a, b, m);
    if a == "" {
      assert a + b == b;
    } else {
      var c, t := a[0], a[1..];
      var n := Next(m, c);
      assert a == [c] + t && End(a, m) == End(t, n);
      Associative([c], t, b);
      calc {
        Compact(a + b, m);
      == { CompactCons(c, t + b, m); }
        Kept(c, m) + Compact(t + b, n);
      == { CompactConcat(t, b, n); }
        Kept(c, m) + (Compact(t, n) + Compact(b, End(t, n)));
      == { Associative(Kept(c, m), Compact(t, n), Compact(b, End(t, n))); }
        (Kept(c, m) + Compact(t, n)) + Compact(b, End(t, n));
      == { CompactCons(c, t, m); }
        Compact(a, m) + Compact(b, End(a, m));
      }
    }
  }

  /** Compacting twice is compacting once, for every text. */
  lemma {:induction false} CompactIdempotent(s: string, m: Mode)
    ensures End(Compact(s, m), m) == End(s, m)
    ensures Compact(Compact(s, m), m) == Compact(s, m)
  {
    if s != "" {
      var n := Next(m, s[0]);
      CompactIdempotent(s[1..], n);
      if !(m == Outside && IsSpace(s[0])) {
        var c := Compact(s, m);
        assert c == [s[0]] + Compact(s[1..], n);
        assert [s[0]][1..] == "";
        assert Compact([s[0]], m) == [s[0]] && End([s[0]], m) == n;
        CompactConcat([s[0]], Compact(s[1..], n), m);
      } else {
        assert Compact(s, m) == Compact(s[1..], n);
      }
    }
  }

  // ---------------------------------------------------------------- the template

  /** One token of the template, quotes included, or the whitespace between tokens. */
  datatype Piece = Gap(text: string) | Mark(text: string) | Quoted(text: string)

  /** Text that may stand inside a JSON string as it is. */
  ghost predicate Plain(s: string) {
    forall i :: 0 <= i < |s| ==> s[i] != '"' && s[i] != '\\'
  }

  ghost predicate WellFormed(p: Piece) {
    match p
    case Gap(t) => forall i :: 0 <= i < |t| ==> IsSpace(t[i])
    case Mark(t) => forall i :: 0 <= i < |t| ==> !IsSpace(t[i]) && t[i] != '"'
    case Quoted(t) => |t| >= 2 && t[0] == '"' && t[|t| - 1] == '"' && Plain(t[1..|t| - 1])
  }

  function Flatten(ps: seq<Piece>): string {
    if ps == [] then "" else ps[0].text + Flatten(ps[1..])
  }

  function Tokens(ps: seq<Piece>): seq<Piece> {
    if ps == [] then [] else (if ps[0].Gap? then [] else [ps[0]]) + Tokens(ps[1..])
  }

  lemma {:induction false} GapVanishes(t: string)
    requires WellFormed(Gap(t))
    ensures Compact(t, Outside) == "" && End(t, Outside) == Outside
  {
    if t != "" {
      GapVanishes(t[1..]);
    }
  }

  lemma {:induction false} MarkStays(t: string)
    requires WellFormed(Mark(t))
    ensures Compact(t, Outside) == t && End(t, Outside) == Outside
  {
    if t != "" {
      MarkStays(t[1..]);
    }
  }

  lemma {:induction false} PlainStays(t: string)
    requires Plain(t)
    ensures Compact(t, Inside) == t && End(t, Inside) == Inside
  {
    if t != "" {
      PlainStays(t[1..]);
    }
  }

  lemma QuotedStays(t: string)
    requires Plain(t)
    ensures Compact("\"" + t + "\"", Outside) == "\"" + t + "\"" && End("\"" + t + "\"", Outside) == Outside
  {
    PlainStays(t);
    var q := "\"";
    assert q[1..] == "";
    CompactConcat(q, t + q, Outside);
    CompactConcat(t, q, Inside);
    assert q + t + q == q + (t + q);
  }

  lemma PieceCompacts(p: Piece)
    requires WellFormed(p)
    ensures Compact(p.text, Outside) == if p.Gap? then "" else p.text
    ensures End(p.text, Outside) == Outside
  {
    match p
    case Gap(t) => GapVanishes(t);
    case Mark(t) => MarkStays(t);
    case Quoted(t) =>
      QuotedStays(t[1..|t| - 1]);
      assert t == "\"" + t[1..|t| - 1] + "\"";
  }

  /** Compaction of a token list keeps every token and drops every gap. */
  lemma {:induction false} CompactFlatten(ps: seq<Piece>)
    requires forall i :: 0 <= i < |ps| ==> WellFormed(ps[i])
    ensures Compact(Flatten(ps), Outside) == Flatten(Tokens(ps))
    ensures End(Flatten(ps), Outside) == Outside
  {
    if ps != [] {
      PieceCompacts(ps[0]);
      CompactConcat(ps[0].text, Flatten(ps[1..]), Outside);
      CompactFlatten(ps[1..]);
      if !ps[0].Gap? {
        assert Tokens(ps) == [ps[0]] + Tokens(ps[1..]);
        assert Tokens(ps)[1..] == Tokens(ps[1..]);
      } else {
        assert Tokens(ps) == Tokens(ps[1..]);
      }
    }
  }

  lemma FlattenCons(p: Piece, ps: seq<Piece>)
    ensures Flatten([p] + ps) == p.text + Flatten(ps)
    ensures Tokens([p] + ps) == (if p.Gap? then [] else [p]) + Tokens(ps)
  {
    assert ([p] + ps)[1..] == ps;
  }

  lemma {:induction false} FlattenConcat(a: seq<Piece>, b: seq<Piece>)
    ensures Flatten(a + b) == Flatten(a) + Flatten(b)
    ensures Tokens(a + b) == Tokens(a) + Tokens(b)
  {
    if a == [] {
      assert a + b == b;
    } else {
      var p, t := a[0], a[1..];
      assert a == [p] + t;
      Associative([p], t, b);
      FlattenCons(p, t);
      FlattenCons(p, t + b);
      FlattenConcat(t, b);
      Associative(p.text, Flatten(t), Flatten(b));
      Associative(if p.Gap? then [] else [p], Tokens(t), Tokens(b));
    }
  }

  // ---------------------------------------------------------------- its lines

  /** A line of punctuation. */
  function MarkRow(indent: string, mark: string): seq<Piece> {
    [Gap(indent), Mark(mark), Gap("\n")]
  }

  /** A line with one string, and what follows it. */
  function StringRow(indent: string, quoted: string, mark: string): seq<Piece> {
    [Gap(indent), Quoted(quoted), Mark(mark), Gap("\n")]
  }

  /** A line that opens or fills a field. */
  function FieldRow(indent: string, name: string, value: Piece, mark: string): seq<Piece> {
    [Gap(indent), Quoted(name), Mark(":"), Gap(" ")] + [value, Mark(mark), Gap("\n")]
  }

  /** One statement: some actions on one resource. */
  function Statement(actions: seq<Piece>, resource: string, end: string): seq<Piece> {
    StatementHead() + actions + StatementTail(resource, end)
  }

  function StatementHead(): seq<Piece> {
    MarkRow("        ", "{")
    + FieldRow("            ", "\"Effect\"", Quoted("\"Allow\""), ",")
    + FieldRow("            ", "\"Action\"", Mark("["), "")
  }

  function StatementTail(resource: string, end: string): seq<Piece> {
    ResourceRows(resource) + MarkRow("            ", "]") + MarkRow("        ", end)
  }

  function ResourceRows(resource: string): seq<Piece> {
    MarkRow("            ", "],")
    + FieldRow("            ", "\"Resource\"", Mark("["), "")
    + StringRow("                ", resource, "")
  }

  function BucketActions(): seq<Piece> {
    StringRow("                ", "\"s3:ListBucket\"", ",")
    + StringRow("\t\t\t\t", "\"s3:GetBucketLocation\"", ",")
    + StringRow("                ", "\"s3:ListAllMyBuckets\"", "")
  }

  function ObjectActions(): seq<Piece> {
    StringRow("                ", "\"s3:*\"", "")
  }

  /** The template with the bucket's name filled in twice. */
  function Template(bucket: string): seq<Piece> {
    TemplateHead()
    + Statement(BucketActions(), "\"arn:aws:s3:::" + bucket + "\"", "},")
    + Statement(ObjectActions(), "\"arn:aws:s3:::" + bucket + "/*\"", "}")
    + (MarkRow("    ", "]") + [Mark("}")])
  }

  function TemplateHead(): seq<Piece> {
    MarkRow("", "{")
    + FieldRow("    ", "\"Version\"", Quoted("\"2012-10-17\""), ",")
    + FieldRow("    ", "\"Statement\"", Mark("["), "")
  }

  /** mc.Policy: fill the template, then compact. */
  function Policy(bucket: string): string {
    Compact(Flatten(Template(bucket)), Outside)
  }

  // ---------------------------------------------------------------- its text

  function Bare(ps: seq<Piece>): string {
    Flatten(Tokens(ps))
  }

  lemma BareConcat(a: seq<Piece>, b: seq<Piece>)
    ensures Bare(a + b) == Bare(a) + Bare(b)
  {
    FlattenConcat(a, b);
    FlattenConcat(Tokens(a), Tokens(b));
  }

  ghost predicate AllWellFormed(ps: seq<Piece>) {
    forall i :: 0 <= i < |ps| ==> WellFormed(ps[i])
  }

  /** Well-formed pieces, their text with the gaps, and without. */
  ghost predicate Reads(ps: seq<Piece>, text: string, bare: string) {
    AllWellFormed(ps) && Flatten(ps) == text && Bare(ps) == bare
  }

  function BareText(p: Piece): string {
    if p.Gap? then "" else p.text
  }

  lemma ReadsOne(p: Piece)
    requires WellFormed(p)
    ensures Reads([p], p.text, BareText(p))
  {
    FlattenCons(p, []);
    if !p.Gap? {
      assert Tokens([p]) == [p];
    }
  }

  lemma ReadsBoth(a: seq<Piece>, b: seq<Piece>, s: string, t: string, s': string, t': string)
    requires Reads(a, s, s') && Reads(b, t, t')
    ensures Reads(a + b, s + t, s' + t')
  {
    FlattenConcat(a, b);
    BareConcat(a, b);
  }

  /** A stretch of the template that reads as it should. */
  datatype Part = Part(ps: seq<Piece>, text: string, bare: string)

  ghost predicate Right(p: Part) {
    Reads(p.ps, p.text, p.bare)
  }

  lemma ReadsParts(a: Part, b: Part, c: Part)
    requires Right(a) && Right(b) && Right(c)
    ensures Reads(a.ps + b.ps + c.ps, a.text + b.text + c.text, a.bare + b.bare + c.bare)
  {
    ReadsBoth(a.ps, b.ps, a.text, b.text, a.bare, b.bare);
    ReadsBoth(a.ps + b.ps, c.ps, a.text + b.text, c.text, a.bare + b.bare, c.bare);
  }

  lemma ReadsThree(p: Piece, q: Piece, r: Piece)
    requires WellFormed(p) && WellFormed(q) && WellFormed(r)
    ensures Reads([p, q, r], p.text + q.text + r.text, BareText(p) + BareText(q) + BareText(r))
  {
    ReadsOne(p);
    ReadsOne(q);
    ReadsOne(r);
    ReadsBoth([p], [q], p.text, q.text, BareText(p), BareText(q));
    ReadsBoth([p] + [q], [r], p.text + q.text, r.text, BareText(p) + BareText(q), BareText(r));
    assert [p] + [q] + [r] == [p, q, r];
  }

  lemma ReadsFour(p: Piece, q: Piece, r: Piece, x: Piece)
    requires WellFormed(p) && WellFormed(q) && WellFormed(r) && WellFormed(x)
    ensures Reads([p, q, r, x], p.text + q.text + r.text + x.text, BareText(p) + BareText(q) + BareText(r) + BareText(x))
  {
    ReadsThree(p, q, r);
    ReadsOne(x);
    ReadsBoth([p, q, r], [x], p.text + q.text + r.text, x.text, BareText(p) + BareText(q) + BareText(r), BareText(x));
    assert [p, q, r] + [x] == [p, q, r, x];
  }

  lemma MarkRowReads(indent: string, mark: string)
    requires WellFormed(Gap(indent)) && WellFormed(Mark(mark))
    ensures Reads(MarkRow(indent, mark), indent + mark + "\n", mark)
  {
    ReadsThree(Gap(indent), Mark(mark), Gap("\n"));
    assert "" + mark + "" == mark;
  }

  lemma StringRowReads(indent: string, quoted: string, mark: string)
    requires WellFormed(Gap(indent)) && WellFormed(Quoted(quoted)) && WellFormed(Mark(mark))
    ensures Reads(StringRow(indent, quoted, mark), indent + quoted + mark + "\n", quoted + mark)
  {
    ReadsFour(Gap(indent), Quoted(quoted), Mark(mark), Gap("\n"));
    assert "" + quoted + mark + "" == quoted + mark;
  }

  lemma FieldRowText(indent: string, name: string, value: string, mark: string)
    ensures indent + name + ":" + " " + (value + mark + "\n") == indent + name + ": " + value + mark + "\n"
    ensures "" + name + ":" + "" + (value + mark + "") == name + ":" + value + mark
  {
    var left := indent + name;
    assert left + ":" + " " == left + ": ";
    Associative(left + ": ", value + mark, "\n");
    Associative(left + ": ", value, mark);
  }

  lemma FieldRowReads(indent: string, name: string, value: Piece, mark: string)
    requires WellFormed(Gap(indent)) && WellFormed(Quoted(name)) && WellFormed(value) && !value.Gap? && WellFormed(Mark(mark))
    ensures Reads(FieldRow(indent, name, value, mark), indent + name + ": " + value.text + mark + "\n",
                  name + ":" + value.text + mark)
  {
    ReadsFour(Gap(indent), Quoted(name), Mark(":"), Gap(" "));
    ReadsThree(value, Mark(mark), Gap("\n"));
    ReadsBoth([Gap(indent), Quoted(name), Mark(":"), Gap(" ")], [value, Mark(mark), Gap("\n")],
              indent + name + ":" + " ", value.text + mark + "\n", "" + name + ":" + "", value.text + mark + "");
    FieldRowText(indent, name, value.text, mark);
  }

  lemma VersionText()
    ensures "    " + "\"Version\"" + ": " + "\"2012-10-17\"" + "," + "\n" == "    \"Version\": \"2012-10-17\",\n"
    ensures "\"Version\"" + ":" + "\"2012-10-17\"" + "," == "\"Version\":\"2012-10-17\","
  {
  }

  lemma VersionReads()
    ensures Reads(FieldRow("    ", "\"Version\"", Quoted("\"2012-10-17\""), ","),
                  "    \"Version\": \"2012-10-17\",\n", "\"Version\":\"2012-10-17\",")
  {
    VersionText();
    FieldRowReads("    ", "\"Version\"", Quoted("\"2012-10-17\""), ",");
  }

  lemma StatementFieldText()
    ensures "    " + "\"Statement\"" + ": " + "[" + "" + "\n" == "    \"Statement\": [\n"
    ensures "\"Statement\"" + ":" + "[" + "" == "\"Statement\":["
  {
  }

  lemma StatementFieldReads()
    ensures Reads(FieldRow("    ", "\"Statement\"", Mark("["), ""),
                  "    \"Statement\": [\n", "\"Statement\":[")
  {
    StatementFieldText();
    FieldRowReads("    ", "\"Statement\"", Mark("["), "");
  }

  lemma EffectText()
    ensures "            " + "\"Effect\"" + ": " + "\"Allow\"" + "," + "\n" == "            \"Effect\": \"Allow\",\n"
    ensures "\"Effect\"" + ":" + "\"Allow\"" + "," == "\"Effect\":\"Allow\","
  {
  }

  lemma EffectReads()
    ensures Reads(FieldRow("            ", "\"Effect\"", Quoted("\"Allow\""), ","),
                  "            \"Effect\": \"Allow\",\n", "\"Effect\":\"Allow\",")
  {
    EffectText();
    FieldRowReads("            ", "\"Effect\"", Quoted("\"Allow\""), ",");
  }

  lemma ActionText()
    ensures "            " + "\"Action\"" + ": " + "[" + "" + "\n" == "            \"Action\": [\n"
    ensures "\"Action\"" + ":" + "[" + "" == "\"Action\":["
  {
  }

  lemma ActionReads()
    ensures Reads(FieldRow("            ", "\"Action\"", Mark("["), ""),
                  "            \"Action\": [\n", "\"Action\":[")
  {
    ActionText();
    FieldRowReads("            ", "\"Action\"", Mark("["), "");
  }

  lemma ResourceFieldText()
    ensures "            " + "\"Resource\"" + ": " + "[" + "" + "\n" == "            \"Resource\": [\n"
    ensures "\"Resource\"" + ":" + "[" + "" == "\"Resource\":["
  {
  }

  lemma ResourceFieldReads()
    ensures Reads(FieldRow("            ", "\"Resource\"", Mark("["), ""),
                  "            \"Resource\": [\n", "\"Resource\":[")
  {
    ResourceFieldText();
    FieldRowReads("            ", "\"Resource\"", Mark("["), "");
  }

  lemma ListBucketText()
    ensures "                " + "\"s3:ListBucket\"" + "," + "\n" == "                \"s3:ListBucket\",\n"
    ensures "\"s3:ListBucket\"" + "," == "\"s3:ListBucket\","
  {
  }

  lemma ListBucketReads()
    ensures Reads(StringRow("                ", "\"s3:ListBucket\"", ","), "                \"s3:ListBucket\",\n", "\"s3:ListBucket\",")
  {
    ListBucketText();
    StringRowReads("                ", "\"s3:ListBucket\"", ",");
  }

  lemma GetBucketLocationText()
    ensures "\t\t\t\t" + "\"s3:GetBucketLocation\"" + "," + "\n" == "\t\t\t\t\"s3:GetBucketLocation\",\n"
    ensures "\"s3:GetBucketLocation\"" + "," == "\"s3:GetBucketLocation\","
  {
  }

  lemma GetBucketLocationReads()
    ensures Reads(StringRow("\t\t\t\t", "\"s3:GetBucketLocation\"", ","), "\t\t\t\t\"s3:GetBucketLocation\",\n", "\"s3:GetBucketLocation\",")
  {
    GetBucketLocationText();
    StringRowReads("\t\t\t\t", "\"s3:GetBucketLocation\"", ",");
  }

  lemma ListAllMyBucketsText()
    ensures "                " + "\"s3:ListAllMyBuckets\"" + "" + "\n" == "                \"s3:ListAllMyBuckets\"\n"
    ensures "\"s3:ListAllMyBuckets\"" + "" == "\"s3:ListAllMyBuckets\""
  {
  }

  lemma ListAllMyBucketsReads()
    ensures Reads(StringRow("                ", "\"s3:ListAllMyBuckets\"", ""), "                \"s3:ListAllMyBuckets\"\n", "\"s3:ListAllMyBuckets\"")
  {
    ListAllMyBucketsText();
    StringRowReads("                ", "\"s3:ListAllMyBuckets\"", "");
  }

  lemma AllActionsText()
    ensures "                " + "\"s3:*\"" + "" + "\n" == "                \"s3:*\"\n"
    ensures "\"s3:*\"" + "" == "\"s3:*\""
  {
  }

  lemma AllActionsReads()
    ensures Reads(StringRow("                ", "\"s3:*\"", ""), "                \"s3:*\"\n", "\"s3:*\"")
  {
    AllActionsText();
    StringRowReads("                ", "\"s3:*\"", "");
  }

  const LISTING := "                \"s3:ListBucket\",\n" + "\t\t\t\t\"s3:GetBucketLocation\",\n" +
                   "                \"s3:ListAllMyBuckets\"\n"
  const BARE_LISTING := "\"s3:ListBucket\"," + "\"s3:GetBucketLocation\"," + "\"s3:ListAllMyBuckets\""

  lemma BucketActionsRead()
    ensures Reads(BucketActions(), LISTING, BARE_LISTING)
  {
    ListBucketReads();
    GetBucketLocationReads();
    ListAllMyBucketsReads();
    ReadsParts(
      Part(StringRow("                ", "\"s3:ListBucket\"", ","), "                \"s3:ListBucket\",\n", "\"s3:ListBucket\","),
      Part(StringRow("\t\t\t\t", "\"s3:GetBucketLocation\"", ","),
           "\t\t\t\t\"s3:GetBucketLocation\",\n", "\"s3:GetBucketLocation\","),
      Part(StringRow("                ", "\"s3:ListAllMyBuckets\"", ""),
           "                \"s3:ListAllMyBuckets\"\n", "\"s3:ListAllMyBuckets\""));
  }

  lemma MarkTexts()
    ensures "        " + "{" + "\n" == "        {\n"
    ensures "            " + "]," + "\n" == "            ],\n"
    ensures "            " + "]" + "\n" == "            ]\n"
    ensures "" + "{" + "\n" == "{\n" && "    " + "]" + "\n" == "    ]\n"
  {
  }

  const ALLOW := "        {\n" + "            \"Effect\": \"Allow\",\n" + "            \"Action\": [\n"
  const BARE_ALLOW := "{" + "\"Effect\":\"Allow\"," + "\"Action\":["

  lemma StatementHeadReads()
    ensures Reads(StatementHead(), ALLOW, BARE_ALLOW)
  {
    MarkTexts();
    MarkRowReads("        ", "{");
    EffectReads();
    ActionReads();
    ReadsParts(
      Part(MarkRow("        ", "{"), "        {\n", "{"),
      Part(FieldRow("            ", "\"Effect\"", Quoted("\"Allow\""), ","),
           "            \"Effect\": \"Allow\",\n", "\"Effect\":\"Allow\","),
      Part(FieldRow("            ", "\"Action\"", Mark("["), ""), "            \"Action\": [\n", "\"Action\":["));
  }

  function OnText(resource: string): string {
    "            ],\n" + "            \"Resource\": [\n" + ("                " + resource + "\n")
  }

  function OnBare(resource: string): string {
    "]," + "\"Resource\":[" + resource
  }

  lemma ResourceRowReads(resource: string)
    requires WellFormed(Quoted(resource))
    ensures Reads(StringRow("                ", resource, ""), "                " + resource + "\n", resource)
  {
    StringRowReads("                ", resource, "");
    assert "                " + resource + "" == "                " + resource && resource + "" == resource;
  }

  lemma ResourceReads(resource: string)
    requires WellFormed(Quoted(resource))
    ensures Reads(ResourceRows(resource), OnText(resource), OnBare(resource))
  {
    MarkTexts();
    MarkRowReads("            ", "],");
    ResourceFieldReads();
    ResourceRowReads(resource);
    ReadsParts(
      Part(MarkRow("            ", "],"), "            ],\n", "],"),
      Part(FieldRow("            ", "\"Resource\"", Mark("["), ""), "            \"Resource\": [\n", "\"Resource\":["),
      Part(StringRow("                ", resource, ""), "                " + resource + "\n", resource));
  }

  lemma StatementTailReads(resource: string, end: string)
    requires WellFormed(Quoted(resource)) && WellFormed(Mark(end))
    ensures Reads(StatementTail(resource, end),
                  OnText(resource) + "            ]\n" + ("        " + end + "\n"), OnBare(resource) + "]" + end)
  {
    MarkTexts();
    ResourceReads(resource);
    MarkRowReads("            ", "]");
    MarkRowReads("        ", end);
    ReadsParts(
      Part(ResourceRows(resource), OnText(resource), OnBare(resource)),
      Part(MarkRow("            ", "]"), "            ]\n", "]"),
      Part(MarkRow("        ", end), "        " + end + "\n", end));
  }

  function StatementPart(actions: Part, resource: string, end: string): Part {
    Part(Statement(actions.ps, resource, end),
         ALLOW + actions.text + (OnText(resource) + "            ]\n" + ("        " + end + "\n")),
         BARE_ALLOW + actions.bare + (OnBare(resource) + "]" + end))
  }

  lemma StatementReads(actions: Part, resource: string, end: string)
    requires Right(actions) && WellFormed(Quoted(resource)) && WellFormed(Mark(end))
    ensures Right(StatementPart(actions, resource, end))
  {
    StatementHeadReads();
    StatementTailReads(resource, end);
    ReadsParts(
      Part(StatementHead(), ALLOW, BARE_ALLOW), actions,
      Part(StatementTail(resource, end),
           OnText(resource) + "            ]\n" + ("        " + end + "\n"), OnBare(resource) + "]" + end));
  }

  const HEAD := "{\n" + "    \"Version\": \"2012-10-17\",\n" + "    \"Statement\": [\n"
  const BARE_HEAD := "{" + "\"Version\":\"2012-10-17\"," + "\"Statement\":["

  lemma TemplateHeadReads()
    ensures Reads(TemplateHead(), HEAD, BARE_HEAD)
  {
    MarkTexts();
    MarkRowReads("", "{");
    VersionReads();
    StatementFieldReads();
    ReadsParts(
      Part(MarkRow("", "{"), "{\n", "{"),
      Part(FieldRow("    ", "\"Version\"", Quoted("\"2012-10-17\""), ","),
           "    \"Version\": \"2012-10-17\",\n", "\"Version\":\"2012-10-17\","),
      Part(FieldRow("    ", "\"Statement\"", Mark("["), ""), "    \"Statement\": [\n", "\"Statement\":["));
  }

  lemma TemplateEndReads()
    ensures Reads(MarkRow("    ", "]") + [Mark("}")], "    ]\n" + "}", "]" + "}")
  {
    MarkTexts();
    MarkRowReads("    ", "]");
    ReadsOne(Mark("}"));
    ReadsBoth(MarkRow("    ", "]"), [Mark("}")], "    ]\n", "}", "]", "}");
  }

  lemma ResourcesAreQuoted(bucket: string)
    requires Plain(bucket)
    ensures WellFormed(Quoted("\"arn:aws:s3:::" + bucket + "\""))
    ensures WellFormed(Quoted("\"arn:aws:s3:::" + bucket + "/*\""))
  {
    var t, u := "\"arn:aws:s3:::" + bucket + "\"", "\"arn:aws:s3:::" + bucket + "/*\"";
    assert t[1..|t| - 1] == "arn:aws:s3:::" + bucket;
    assert u[1..|u| - 1] == "arn:aws:s3:::" + bucket + "/*";
  }

  /** Head, two statements, end. */
  lemma WholeReads(first: Part, second: Part)
    requires Right(first) && Right(second)
    ensures Reads(TemplateHead() + first.ps + second.ps + (MarkRow("    ", "]") + [Mark("}")]),
                  HEAD + first.text + second.text + ("    ]\n" + "}"), BARE_HEAD + first.bare + second.bare + ("]" + "}"))
  {
    TemplateHeadReads();
    TemplateEndReads();
    ReadsParts(Part(TemplateHead(), HEAD, BARE_HEAD), first, second);
    ReadsBoth(TemplateHead() + first.ps + second.ps, MarkRow("    ", "]") + [Mark("}")],
              HEAD + first.text + second.text, "    ]\n" + "}", BARE_HEAD + first.bare + second.bare, "]" + "}");
  }

  const LISTING_PART := Part(BucketActions(), LISTING, BARE_LISTING)
  const OBJECTS_PART := Part(ObjectActions(), "                \"s3:*\"\n", "\"s3:*\"")

  function FirstStatement(bucket: string): Part {
    StatementPart(LISTING_PART, "\"arn:aws:s3:::" + bucket + "\"", "},")
  }

  function SecondStatement(bucket: string): Part {
    StatementPart(OBJECTS_PART, "\"arn:aws:s3:::" + bucket + "/*\"", "}")
  }

  lemma FirstStatementReads(bucket: string)
    requires Plain(bucket)
    ensures Right(FirstStatement(bucket))
  {
    BucketActionsRead();
    ResourcesAreQuoted(bucket);
    StatementReads(LISTING_PART, "\"arn:aws:s3:::" + bucket + "\"", "},");
  }

  lemma SecondStatementReads(bucket: string)
    requires Plain(bucket)
    ensures Right(SecondStatement(bucket))
  {
    AllActionsReads();
    ResourcesAreQuoted(bucket);
    StatementReads(OBJECTS_PART, "\"arn:aws:s3:::" + bucket + "/*\"", "}");
  }

  lemma TemplateReads(bucket: string)
    requires Plain(bucket)
    ensures Reads(Template(bucket),
                  HEAD + FirstStatement(bucket).text + SecondStatement(bucket).text + ("    ]\n" + "}"),
                  BARE_HEAD + FirstStatement(bucket).bare + SecondStatement(bucket).bare + ("]" + "}"))
  {
    FirstStatementReads(bucket);
    SecondStatementReads(bucket);
    WholeReads(FirstStatement(bucket), SecondStatement(bucket));
  }

  /** The template is the source's text, gaps included. */
  lemma TemplateIsSource(bucket: string)
    requires Plain(bucket)
    ensures Flatten(Template(bucket)) ==
            ("{\n" +
             "    \"Version\": \"2012-10-17\",\n" +
             "    \"Statement\": [\n") +
            (("        {\n" +
              "            \"Effect\": \"Allow\",\n" +
              "            \"Action\": [\n") +
             ("                \"s3:ListBucket\",\n" +
              "\t\t\t\t\"s3:GetBucketLocation\",\n" +
              "                \"s3:ListAllMyBuckets\"\n") +
             ("            ],\n" +
              "            \"Resource\": [\n" +
              ("                " + ("\"arn:aws:s3:::" + bucket + "\"") + "\n") +
              "            ]\n" +
              ("        " + "}," + "\n"))) +
            (("        {\n" +
              "            \"Effect\": \"Allow\",\n" +
              "            \"Action\": [\n") +
             "                \"s3:*\"\n" +
             ("            ],\n" +
              "            \"Resource\": [\n" +
              ("                " + ("\"arn:aws:s3:::" + bucket + "/*\"") + "\n") +
              "            ]\n" +
              ("        " + "}" + "\n"))) +
            ("    ]\n" +
             "}")
  {
    TemplateReads(bucket);
  }

  /** Compacting the filled template is filling the compacted template: the policy of
      a bucket is exactly this document. */
  lemma PolicyFillsCompacted(bucket: string)
    requires Plain(bucket)
    ensures Policy(bucket) ==
            ("{" + "\"Version\":\"2012-10-17\"," + "\"Statement\":[") +
            (("{" + "\"Effect\":\"Allow\"," + "\"Action\":[") +
             ("\"s3:ListBucket\"," + "\"s3:GetBucketLocation\"," + "\"s3:ListAllMyBuckets\"") +
             ("]," + "\"Resource\":[" + ("\"arn:aws:s3:::" + bucket + "\"") + "]" + "},")) +
            (("{" + "\"Effect\":\"Allow\"," + "\"Action\":[") + "\"s3:*\"" +
             ("]," + "\"Resource\":[" + ("\"arn:aws:s3:::" + bucket + "/*\"") + "]" + "}")) +
            ("]" + "}")
  {
    PolicyIs(bucket);
  }

  /** The name can be read off where it was first filled in. */
  lemma NameIsThere(head: string, allow: string, actions: string, on: string, arn: string, name: string,
                    quote: string, close: string, end: string, second: string, last: string)
    ensures var s := head + (allow + actions + (on + (arn + name + quote) + close + end)) + second + last;
            var n := |head| + |allow| + |actions| + |on| + |arn|;
            |s| == n + |name| + |quote| + |close| + |end| + |second| + |last| && s[n..n + |name|] == name
  {
    var s := head + (allow + actions + (on + (arn + name + quote) + close + end)) + second + last;
    var n := |head| + |allow| + |actions| + |on| + |arn|;
    assert forall i :: 0 <= i < |name| ==> s[n + i] == name[i];
  }

  lemma FilledTwiceInjective(head: string, allow: string, actions: string, on: string, arn: string, a: string, b: string,
                             quote: string, close: string, end: string, second: string, second': string, last: string)
    requires head + (allow + actions + (on + (arn + a + quote) + close + end)) + second + last ==
             head + (allow + actions + (on + (arn + b + quote) + close + end)) + second' + last
    requires |second| - |a| == |second'| - |b|
    ensures a == b
  {
    NameIsThere(head, allow, actions, on, arn, a, quote, close, end, second, last);
    NameIsThere(head, allow, actions, on, arn, b, quote, close, end, second', last);
  }

  lemma LengthOfStatement(allow: string, actions: string, on: string, arn: string, a: string, b: string, quote: string,
                          close: string, end: string)
    ensures |allow + actions + (on + (arn + a + quote) + close + end)| - |a| ==
            |allow + actions + (on + (arn + b + quote) + close + end)| - |b|
  {
  }

  /** Different buckets have different policies. */
  lemma PolicyInjective(a: string, b: string)
    requires Plain(a) && Plain(b) && Policy(a) == Policy(b)
    ensures a == b
  {
    PolicyIs(a);
    PolicyIs(b);
    LengthOfStatement(BARE_ALLOW, "\"s3:*\"", "]," + "\"Resource\":[", "\"arn:aws:s3:::", a, b, "/*\"", "]", "}");
    FilledTwiceInjective(BARE_HEAD, BARE_ALLOW, BARE_LISTING, "]," + "\"Resource\":[", "\"arn:aws:s3:::", a, b,
                         "\"", "]", "},", SecondStatement(a).bare, SecondStatement(b).bare, "]" + "}");
  }

  lemma PolicyIs(name: string)
    requires Plain(name)
    ensures Policy(name) == BARE_HEAD + FirstStatement(name).bare + SecondStatement(name).bare + ("]" + "}")
  {
    TemplateReads(name);
    CompactFlatten(Template(name));
  }

  // ---------------------------------------------------------------- policy names of a user

  /** strings.Join with a comma. */
  function Join(names: seq<string>): string {
    if names == [] then ""
    else if |names| == 1 then names[0]
    else names[0] + "," + Join(names[1..])
  }

  function FirstComma(s: string): (i: nat)
    ensures i <= |s|
    ensures forall j :: 0 <= j < i ==> s[j] != ','
    ensures i < |s| ==> s[i] == ','
  {
    if s == "" || s[0] == ',' then 0 else 1 + FirstComma(s[1..])
  }

  /** How MinIO reads the list: split at every comma. */
  function Split(s: string): seq<string>
    decreases |s|
  {
    var i := FirstComma(s);
    if i < |s| then [s[..i]] + Split(s[i + 1..]) else [s]
  }

  /** The attached policies are exactly the names joined, for any non-empty list
      of comma-free names. */
  lemma {:induction false} SplitJoin(names: seq<string>)
    requires names != []
    requires forall i :: 0 <= i < |names| ==> ',' !in names[i]
    ensures Split(Join(names)) == names
  {
    var s := Join(names);
    var n := |names[0]|;
    if |names| == 1 {
      assert FirstComma(s) == n;
    } else {
      SplitJoin(names[1..]);
      assert s[n] == ',';
      assert forall j :: 0 <= j < n ==> s[j] == names[0][j];
      assert FirstComma(s) == n;
      assert s[..n] == names[0] && s[n + 1..] == Join(names[1..]);
    }
  }
}
