/**
 * The small display formatters of the app variant's result panel: the phone
 * number (`formatPhone`), the CEP (postal code) hyphenation, and the tax-regime
 * label.  Each has an explicit fallback for absent data.
 */
module Display {
  import opened Wrappers
  import opened CnpjMask
  import opened CnpjRecord

  /** The fallback text for an absent value. */
  const NotInformed := "Não informado"

  /** `x || ''` on an optional string. */
  function OrEmpty(x: Option<string>): string {
    if x.Some? then x.value else ""
  }

  /** `s.padStart(width, fill)` with a one-character fill: never truncates. */
  function PadStart(s: string, width: nat, fill: char): (r: string)
    ensures |r| == if |s| >= width then |s| else width
    ensures r[|r| - |s|..] == s
    ensures forall i :: 0 <= i < |r| - |s| ==> r[i] == fill
  {
    if |s| >= width then s else seq(width - |s|, _ => fill) + s
  }

  /** formatPhone: `(ddd) NNNNN-rest`, the number first padded on the left with 9s to 9 characters. */
  function FormatPhone(ddd: string, phone: string): string {
    if ddd == "" || phone == "" then NotInformed
    else
      var number := PadStart(phone, 9, '9');
      "(" + ddd + ") " + number[..5] + "-" + number[5..]
  }

  /**
   * The fallback appears exactly when the area code or the number is missing.
   * Otherwise the text is the area code in parentheses and a space, then the
   * padded number with a hyphen after its fifth character; the padded number
   * has max(9, |phone|) characters, ends with the whole phone and starts with 9s.
   */
  lemma FormatPhoneSpec(ddd: string, phone: string)
    ensures FormatPhone(ddd, phone) == NotInformed <==> ddd == "" || phone == ""
    ensures ddd != "" && phone != "" ==>
      var r := FormatPhone(ddd, phone);
      var h := |ddd| + 3;
      var number := r[h..h + 5] + r[h + 6..];
      && |r| == h + 1 + (if |phone| >= 9 then |phone| else 9)
      && r[..h] == "(" + ddd + ") "
      && r[h + 5] == '-'
      && number[|number| - |phone|..] == phone
      && (forall i :: 0 <= i < |number| - |phone| ==> number[i] == '9')
  {
    if ddd != "" && phone != "" {
      var r := FormatPhone(ddd, phone);
      var h := |ddd| + 3;
      var padded := PadStart(phone, 9, '9');
      assert r == "(" + ddd + ") " + padded[..5] + "-" + padded[5..];
      assert r[0] == '(' && NotInformed[0] == 'N';
      assert r[h..h + 5] == padded[..5];
      assert r[h + 6..] == padded[5..];
      assert r[h..h + 5] + r[h + 6..] == padded;
    }
  }

  /** The main phone line of the contact section (line 191): absent parts become "". */
  function MainPhoneDisplay(e: Option<Estabelecimento>): (r: string)
    ensures e.None? || OrEmpty(e.value.ddd1) == "" || OrEmpty(e.value.telefone1) == "" ==> r == NotInformed
    ensures e.Some? && OrEmpty(e.value.ddd1) != "" && OrEmpty(e.value.telefone1) != "" ==>
      r == FormatPhone(OrEmpty(e.value.ddd1), OrEmpty(e.value.telefone1)) && r != NotInformed
  {
    if e.Some? then
      FormatPhoneSpec(OrEmpty(e.value.ddd1), OrEmpty(e.value.telefone1));
      FormatPhone(OrEmpty(e.value.ddd1), OrEmpty(e.value.telefone1))
    else FormatPhone("", "")
  }

  /** `cep.replace(/^(\d{5})(\d{3})$/, '$1-$2')`: only a whole eight-digit CEP is hyphenated. */
  function HyphenateCep(cep: string): string {
    if |cep| == 8 && AllDigits(cep) then cep[..5] + "-" + cep[5..] else cep
  }

  /** The CEP line of the address section (line 176). */
  function CepDisplay(e: Option<Estabelecimento>): string {
    var cep := if e.Some? then e.value.cep else None;
    if cep.None? || cep.value == "" then NotInformed else HyphenateCep(cep.value)
  }

  /**
   * Eight digits show as NNNNN-NNN, from which dropping the hyphen (or stripping
   * non-digits) gives the CEP back; any other value is shown unchanged.
   */
  lemma HyphenateCepSpec(cep: string)
    ensures |cep| == 8 && AllDigits(cep) ==>
      var r := HyphenateCep(cep);
      && |r| == 9 && r[5] == '-' && AllDigits(r[..5]) && AllDigits(r[6..])
      && r[..5] + r[6..] == cep
      && StripNonDigits(r) == cep
    ensures !(|cep| == 8 && AllDigits(cep)) ==> HyphenateCep(cep) == cep
  {
    if |cep| == 8 && AllDigits(cep) {
      var r := HyphenateCep(cep);
      assert r[..5] == cep[..5] && r[6..] == cep[5..];
      assert cep == cep[..5] + cep[5..];
      StripIdentity(cep[..5]);
      StripIdentity(cep[5..]);
      StripSeparator('-');
      StripConcat(cep[..5], "-");
      StripConcat(cep[..5] + "-", cep[5..]);
    }
  }

  /**
   * The CEP line: an absent or empty CEP shows the fallback, an eight-digit CEP
   * shows as NNNNN-NNN with its digits intact, any other value unchanged.
   */
  lemma CepDisplaySpec(e: Option<Estabelecimento>)
    ensures e.None? || e.value.cep.None? || e.value.cep.value == "" ==> CepDisplay(e) == NotInformed
    ensures e.Some? && e.value.cep.Some? && |e.value.cep.value| == 8 && AllDigits(e.value.cep.value) ==>
      var r := CepDisplay(e);
      |r| == 9 && r[5] == '-' && StripNonDigits(r) == e.value.cep.value
    ensures e.Some? && e.value.cep.Some? && e.value.cep.value != "" ==>
      (!(|e.value.cep.value| == 8 && AllDigits(e.value.cep.value)) ==> CepDisplay(e) == e.value.cep.value)
  {
    if e.Some? && e.value.cep.Some? && e.value.cep.value != "" {
      HyphenateCepSpec(e.value.cep.value);
    }
  }

  const SimplesLabel := "Simples Nacional"
  const NotSimplesLabel := "Não Optante pelo Simples"
  const MeiSuffix := " - MEI"

  /** The tax-regime line (lines 153-154). */
  function RegimeDisplay(s: Option<Simples>): string {
    (if s.Some? && s.value.simples == "Sim" then SimplesLabel else NotSimplesLabel)
    + (if s.Some? && s.value.mei == "Sim" then MeiSuffix else "")
  }

  /**
   * The label is the regime head followed by the optional MEI suffix and nothing
   * else: it starts with "Simples Nacional" exactly when simples is "Sim" and
   * with "Não Optante pelo Simples" otherwise, and ends with " - MEI" exactly
   * when mei is "Sim".
   */
  lemma RegimeDisplaySpec(s: Option<Simples>)
    ensures |RegimeDisplay(s)| ==
      (if s.Some? && s.value.simples == "Sim" then |SimplesLabel| else |NotSimplesLabel|)
      + (if s.Some? && s.value.mei == "Sim" then |MeiSuffix| else 0)
    ensures |RegimeDisplay(s)| >= |SimplesLabel| && |RegimeDisplay(s)| >= |MeiSuffix|
    ensures !(s.Some? && s.value.simples == "Sim") ==> RegimeDisplay(s)[..|NotSimplesLabel|] == NotSimplesLabel
    ensures RegimeDisplay(s)[..|SimplesLabel|] == SimplesLabel <==> s.Some? && s.value.simples == "Sim"
    ensures RegimeDisplay(s)[|RegimeDisplay(s)| - |MeiSuffix|..] == MeiSuffix <==> s.Some? && s.value.mei == "Sim"
  {
    var head := if s.Some? && s.value.simples == "Sim" then SimplesLabel else NotSimplesLabel;
    var tail := if s.Some? && s.value.mei == "Sim" then MeiSuffix else "";
    var r := RegimeDisplay(s);
    assert r == head + tail;
    assert r[..|SimplesLabel|] == head[..|SimplesLabel|];
    assert NotSimplesLabel[0] != SimplesLabel[0];
    if tail == "" {
      assert r[|r| - |MeiSuffix|..] == head[|head| - |MeiSuffix|..];
      assert head[|head| - 1] == 'l' || head[|head| - 1] == 's';
    } else {
      assert r[|r| - |MeiSuffix|..] == MeiSuffix;
    }
  }
}
