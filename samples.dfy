/**
 * Worked inputs: what the model gives for a few concrete values.
 */
module Samples {
  import opened Wrappers
  import opened Text
  import opened ObjectFiles

  /** The path of an archive member splits at its member group. */
  lemma SplitArchiveMember()
    ensures SplitComment("/l/c.a(p.o)") == Path(Some("/l/c.a"), Some("p.o"))
  {
    var c := "/l/c.a(p.o)";
    forall k | 1 <= k < 6
      ensures !IsMemberSuffix(c[k..])
    {
      assert c[k..][0] == c[k];
    }
    assert IsMemberSuffix(c[6..]);
    var p := SplitComment(c);
    assert p.member.Some?;
    assert |p.file.value| == 6;
    assert p.file.value == "/l/c.a";
    assert c == "/l/c.a" + "(" + p.member.value + ")";
    assert p.member.value == c[7..10];
    MemberText();
  }

  lemma MemberText()
    ensures "/l/c.a(p.o)"[7..10] == "p.o"
  {
  }

  /** A contribution from an archive member is grouped under the
      archive's file name. */
  lemma ArchiveMember()
    ensures NewObjectfile(" .text", 16, 32, Some("/l/c.a(p.o)")).path == Path(Some("/l/c.a"), Some("p.o"))
    ensures NewObjectfile(" .text", 16, 32, Some("/l/c.a(p.o)")).basepath == Some("c.a")
  {
    SplitArchiveMember();
  }
}
