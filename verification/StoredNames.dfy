/** The destination names of an attempt: the abstraction behind the names of the protocol. */
module StoredNames {
  import opened Options

  datatype Backend = Local | S3

  const S3_PREFIX := "s3:"

  predicate IsS3Name(name: string) {
    S3_PREFIX <= name
  }

  // A file name that is its own last path component.
  predicate PlainName(f: string) {
    f != "" && f != "." && f != ".." && '/' !in f && '\\' !in f && ':' !in f
  }

  function Key(prefix: string, f: string): string {
    (if prefix == "" then "" else prefix + "/") + "processed/" + f
  }

  // None is the refusal of an unsafe file name.
  function Planned(b: Backend, prefix: string, f: string): Option<string> {
    if !PlainName(f) then None
    else Some(if b.S3? then S3_PREFIX + Key(prefix, f) else f)
  }

  // The root output of an attempt, by its suffix, or one of its parts, by its display name.
  datatype Piece = Root(suffix: string) | Part(display: string)

  predicate ValidPiece(p: Piece) {
    match p
    case Root(suffix) =>
      |suffix| >= 2 && suffix[0] == '.' && forall c :: c in suffix ==> c != '/' && c != '\\' && c != ':'
    case Part(display) => PlainName(display)
  }

  // The text form of a UUID.
  predicate Uuid(s: string) {
    |s| == 36 && forall c :: c in s ==> '0' <= c <= '9' || 'a' <= c <= 'f' || c == '-'
  }

  function FileName(job: string, token: string, p: Piece): string {
    job + "-" + token + (if p.Root? then p.suffix else "-" + p.display)
  }

  lemma FileNamePlain(job: string, token: string, p: Piece)
    requires Uuid(job) && Uuid(token) && ValidPiece(p)
    ensures PlainName(FileName(job, token, p))
  {
    var tail := if p.Root? then p.suffix else "-" + p.display;
    assert forall c :: c in FileName(job, token, p) ==> c in job || c == '-' || c in token || c in tail;
    assert forall c :: c in tail ==> c != '/' && c != '\\' && c != ':';
  }

  lemma FileNameParts(job: string, token: string, p: Piece)
    requires Uuid(job) && Uuid(token)
    ensures var f := FileName(job, token, p);
      |f| >= 73 && f[..36] == job && f[37..73] == token && f[73..] == (if p.Root? then p.suffix else "-" + p.display)
  {
  }

  // A destination is read and deleted on the backend it was planned for, and two destinations are
  // the same only for the same piece of the same attempt on the same backend: no attempt can write
  // to, or clean up, a name of another one, not even after the backend was changed.
  lemma DestinationsAreDistinct(prefix: string, b: Backend, job: string, token: string, p: Piece,
                                b1: Backend, job1: string, token1: string, p1: Piece)
    requires Uuid(job) && Uuid(token) && ValidPiece(p) && Uuid(job1) && Uuid(token1) && ValidPiece(p1)
    ensures Planned(b, prefix, FileName(job, token, p)).Some? && Planned(b1, prefix, FileName(job1, token1, p1)).Some?
    ensures IsS3Name(Planned(b, prefix, FileName(job, token, p)).value) <==> b.S3?
    ensures Planned(b, prefix, FileName(job, token, p)) == Planned(b1, prefix, FileName(job1, token1, p1)) <==>
            b == b1 && job == job1 && token == token1 && p == p1
  {
    FileNamePlain(job, token, p);
    FileNamePlain(job1, token1, p1);
    FileNameParts(job, token, p);
    FileNameParts(job1, token1, p1);
    PlannedOnBackend(b, prefix, FileName(job, token, p));
    PlannedOnBackend(b1, prefix, FileName(job1, token1, p1));
    PlannedInjective(b, prefix, FileName(job, token, p), FileName(job1, token1, p1));
    SamePiece(p, p1);
    hide FileName, PlainName, Uuid, Planned, IsS3Name;
  }

  lemma SamePiece(p: Piece, p1: Piece)
    requires ValidPiece(p) && ValidPiece(p1)
    ensures (if p.Root? then p.suffix else "-" + p.display) == (if p1.Root? then p1.suffix else "-" + p1.display) <==>
              p == p1
  {
    if p.Part? && p1.Part? {
      assert ("-" + p.display)[1..] == p.display && ("-" + p1.display)[1..] == p1.display;
    }
  }

  lemma PlannedInjective(b: Backend, prefix: string, f: string, g: string)
    requires PlainName(f) && PlainName(g)
    ensures Planned(b, prefix, f) == Planned(b, prefix, g) <==> f == g
  {
    var head := S3_PREFIX + (if prefix == "" then "" else prefix + "/") + "processed/";
    assert S3_PREFIX + Key(prefix, f) == head + f && S3_PREFIX + Key(prefix, g) == head + g;
    assert (head + f)[|head|..] == f && (head + g)[|head|..] == g;
  }

  // A destination is on the configured backend.
  lemma PlannedOnBackend(b: Backend, prefix: string, f: string)
    requires PlainName(f)
    ensures Planned(b, prefix, f).Some? && (IsS3Name(Planned(b, prefix, f).value) <==> b.S3?)
  {
    if b.Local? {
      assert S3_PREFIX[2] == ':';
      assert |f| > 2 ==> f[2] in f;
    } else {
      assert S3_PREFIX <= S3_PREFIX + Key(prefix, f);
    }
  }

  // Where the pieces of an attempt go, written out; only a name that is no plain file name is refused.
  lemma Layout(prefix: string, job: string, token: string, p: Piece)
    requires Uuid(job) && Uuid(token) && ValidPiece(p)
    ensures var name := job + "-" + token + (match p case Root(suffix) => suffix case Part(display) => "-" + display);
      && Planned(Local, prefix, FileName(job, token, p)) == Some(name)
      && Planned(S3, prefix, FileName(job, token, p))
         == Some(if prefix == "" then "s3:processed/" + name else "s3:" + prefix + "/processed/" + name)
    ensures forall b, f :: Planned(b, prefix, f).None? <==>
              f in {"", ".", ".."} || exists i :: 0 <= i < |f| && (f[i] == '/' || f[i] == '\\' || f[i] == ':')
  {
    FileNamePlain(job, token, p);
    var name := FileName(job, token, p);
    assert S3_PREFIX + Key("", name) == "s3:" + ("" + "processed/" + name);
    assert "s3:" + ("" + "processed/" + name) == "s3:processed/" + name;
    assert "s3:" + (prefix + "/" + "processed/" + name) == "s3:" + prefix + "/processed/" + name;
  }
}
