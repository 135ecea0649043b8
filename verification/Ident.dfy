/** The 64-bit ident composite: eight flag bits above a 56-bit identifier. */
module Ident {

  const IDENT_ISREPORT_BIT: bv8 := 1
  const IDENT_ISROUTINE_BIT: bv8 := 2
  const IDENT_MAX_IDENT_VALUE: bv64 := 0x00FF_FFFF_FFFF_FFFF

  function GetIdentFlags(composite: bv64): bv8 { (composite >> 56) as bv8 }

  function GetIdentInteger(composite: bv64): bv64 { (composite << 8) >> 8 }

  function BuildIdentComposite(flags: bv8, ident: bv64): bv64 { ident | ((flags as bv64) << 56) }

  /** The flags stand above the identifier: the word is a sum. */
  lemma CompositeSum(flags: bv8, ident: bv64)
    requires ident <= IDENT_MAX_IDENT_VALUE
    ensures BuildIdentComposite(flags, ident) == (flags as bv64) * 0x0100_0000_0000_0000 + ident
  {
  }

  /** Decoding what was built gives the parts back, for every identifier of at most 56 bits and no other. */
  lemma DecodeBuilt(flags: bv8, ident: bv64)
    ensures ident <= IDENT_MAX_IDENT_VALUE <==>
            GetIdentInteger(BuildIdentComposite(flags, ident)) == ident
    ensures ident <= IDENT_MAX_IDENT_VALUE ==> GetIdentFlags(BuildIdentComposite(flags, ident)) == flags
  {
  }

  /** Building from decoded parts gives the word back. */
  lemma BuildDecoded(composite: bv64)
    ensures BuildIdentComposite(GetIdentFlags(composite), GetIdentInteger(composite)) == composite
    ensures GetIdentInteger(composite) <= IDENT_MAX_IDENT_VALUE
  {
  }

  /** Building over a word that is already composite merges the flags. */
  lemma BuildOverComposite(flags: bv8, more: bv8, ident: bv64)
    ensures BuildIdentComposite(more, BuildIdentComposite(flags, ident)) == BuildIdentComposite(flags | more, ident)
  {
  }

  predicate IsReport(composite: bv64) { GetIdentFlags(composite) & IDENT_ISREPORT_BIT != 0 }

  /** Taking the report flag away, and putting it there, in terms of the word itself. */
  lemma WithoutReport(composite: bv64)
    ensures BuildIdentComposite(GetIdentFlags(composite) & !IDENT_ISREPORT_BIT, GetIdentInteger(composite)) ==
            composite & 0xFEFF_FFFF_FFFF_FFFF
  {
  }

  lemma WithReport(word: bv64, composite: bv64)
    ensures word == composite | 0x0100_0000_0000_0000 <==>
            && GetIdentInteger(word) == GetIdentInteger(composite)
            && GetIdentFlags(word) == GetIdentFlags(composite) | IDENT_ISREPORT_BIT && IsReport(word)
  {
    ReportBit(composite);
    BuildDecoded(word);
    BuildDecoded(composite);
    DecodeBuilt(GetIdentFlags(composite) | IDENT_ISREPORT_BIT, GetIdentInteger(composite));
    ReportReports(composite, BuildIdentComposite(GetIdentFlags(composite) | IDENT_ISREPORT_BIT, GetIdentInteger(composite)));
  }

  lemma ReportBit(composite: bv64)
    ensures BuildIdentComposite(GetIdentFlags(composite) | IDENT_ISREPORT_BIT, GetIdentInteger(composite)) ==
            composite | 0x0100_0000_0000_0000
    ensures BuildIdentComposite(GetIdentFlags(composite) | IDENT_ISREPORT_BIT, composite) == composite | 0x0100_0000_0000_0000
  {
  }

  lemma ReportOverIdent(composite: bv64, word: bv64)
    requires word == BuildIdentComposite(GetIdentFlags(composite) | IDENT_ISREPORT_BIT, composite)
    ensures word == BuildIdentComposite(GetIdentFlags(composite) | IDENT_ISREPORT_BIT, GetIdentInteger(composite))
  {
  }

  lemma ReportFlags(composite: bv64, word: bv64)
    requires word == BuildIdentComposite(GetIdentFlags(composite) | IDENT_ISREPORT_BIT, composite)
    ensures GetIdentFlags(word) == GetIdentFlags(composite) | IDENT_ISREPORT_BIT
  {
  }

  lemma ReportIdent(composite: bv64, word: bv64)
    requires word == BuildIdentComposite(GetIdentFlags(composite) | IDENT_ISREPORT_BIT, composite)
    ensures GetIdentInteger(word) == GetIdentInteger(composite)
  {
    TopDrops(composite, GetIdentFlags(composite) | IDENT_ISREPORT_BIT);
  }

  /** Shifting the flags out leaves the ident alone. */
  lemma TopDrops(ident: bv64, flags: bv8)
    ensures GetIdentInteger(BuildIdentComposite(flags, ident)) == GetIdentInteger(ident)
  {
    var top := (flags as bv64) << 56;
    assert top << 8 == 0;
    assert (ident | top) << 8 == (ident << 8) | (top << 8);
  }

  lemma ReportReports(composite: bv64, word: bv64)
    requires GetIdentFlags(word) == GetIdentFlags(composite) | IDENT_ISREPORT_BIT
    ensures IsReport(word)
  {
  }

  lemma ReportParts(composite: bv64, word: bv64)
    requires word == BuildIdentComposite(GetIdentFlags(composite) | IDENT_ISREPORT_BIT, composite)
    ensures GetIdentFlags(word) == GetIdentFlags(composite) | IDENT_ISREPORT_BIT
    ensures GetIdentInteger(word) == GetIdentInteger(composite)
    ensures IsReport(word)
  {
    ReportFlags(composite, word);
    ReportIdent(composite, word);
    ReportReports(composite, word);
  }

  /** Putting the report flag on a word, over the word itself or from its bare ident, adds that flag and nothing else. */
  lemma ReportWord(composite: bv64) returns (word: bv64)
    ensures word == BuildIdentComposite(GetIdentFlags(composite) | IDENT_ISREPORT_BIT, composite)
    ensures word == BuildIdentComposite(GetIdentFlags(composite) | IDENT_ISREPORT_BIT, GetIdentInteger(composite))
    ensures GetIdentFlags(word) == GetIdentFlags(composite) | IDENT_ISREPORT_BIT
    ensures GetIdentInteger(word) == GetIdentInteger(composite)
    ensures IsReport(word)
  {
    word := BuildIdentComposite(GetIdentFlags(composite) | IDENT_ISREPORT_BIT, composite);
    ReportOverIdent(composite, word);
    ReportParts(composite, word);
  }
}
