/** The lead form in front of the PDF report: the form state and its field
    errors, the validation run on submit, the handlers that edit the state,
    and the guards that decide whether a report is generated. */
module PdfLeadForm {
  import opened Wrappers
  import opened Text
  import PdfReport

  /** The fields of the form. */
  datatype Field = Nome | Cognome | Consenso | IsCoach | CoachName | CoachCompany | CoachEmail | CoachLogo | ColorPalette

  /** The fields edited as text. */
  predicate IsTextField(f: Field) {
    f != Consenso && f != IsCoach
  }

  datatype FormData = FormData(
    nome: string, cognome: string, consenso: bool, isCoach: bool,
    coachName: string, coachCompany: string, coachEmail: string, coachLogo: string,
    colorPalette: string)

  /** The empty form, with the green palette. */
  const Defaults: FormData := FormData("", "", false, false, "", "", "", "", "green")

  /** The error messages. */
  const NomeRequired: string := "Il nome è obbligatorio"
  const CognomeRequired: string := "Il cognome è obbligatorio"
  const CoachNameRequired: string := "Il nome del coach è obbligatorio"
  const CoachEmailRequired: string := "L'email del coach è obbligatoria"
  const CoachEmailInvalid: string := "Inserisci un'email valida"
  const ConsentRequired: string := "Devi accettare il consenso per procedere"
  const LogoTooLarge: string := "Il file deve essere massimo 2MB"

  /** The largest logo accepted, in bytes. */
  const MaxLogoBytes: nat := 2 * 1024 * 1024

  // ---------------------------------------------------------------------
  // The e-mail pattern ^[^\s@]+@[^\s@]+\.[^\s@]+$

  /** A character of `[^\s@]`. */
  predicate Plain(c: char) {
    !IsWhitespace(c) && c != '@'
  }

  predicate AllPlain(s: string) {
    forall k :: 0 <= k < |s| ==> Plain(s[k])
  }

  /** What the pattern accepts: a non-empty local part, '@', a non-empty
      domain, '.', and a non-empty last part, none of them holding white
      space or '@'. */
  ghost predicate EmailShape(s: string) {
    exists i, j :: 0 < i && i + 1 < j < |s| - 1 && s[i] == '@' && s[j] == '.'
      && AllPlain(s[..i]) && AllPlain(s[i + 1..j]) && AllPlain(s[j + 1..])
  }

  /** The position of the first '@', if any. */
  function AtIndex(s: string): (r: Option<nat>)
    ensures r.Some? ==> r.value < |s| && s[r.value] == '@' && '@' !in s[..r.value]
    ensures r.None? ==> '@' !in s
  {
    if |s| == 0 then None
    else if s[0] == '@' then Some(0)
    else
      match AtIndex(s[1..])
      case None => None
      case Some(i) =>
        assert s[..i + 1] == [s[0]] + s[1..][..i];
        Some(i + 1)
  }

  /** The test of the pattern: no white space, a single '@' that is not
      first, and a '.' with a character on each side between it and the
      '@' and the end. */
  function MatchesEmail(s: string): bool {
    && (forall k :: 0 <= k < |s| ==> !IsWhitespace(s[k]))
    && match AtIndex(s)
       case None => false
       case Some(i) => 0 < i && i + 2 < |s| && '@' !in s[i + 1..] && '.' in s[i + 2..|s| - 1]
  }

  /** A run of plain characters of `s` is a plain slice. */
  lemma PlainSlice(s: string, lo: int, hi: int)
    requires 0 <= lo <= hi <= |s|
    requires forall x :: lo <= x < hi ==> Plain(s[x])
    ensures AllPlain(s[lo..hi])
  {
  }

  /** Each character of a plain slice is plain. */
  lemma PlainAt(s: string, lo: int, hi: int, x: int)
    requires 0 <= lo <= x < hi <= |s| && AllPlain(s[lo..hi])
    ensures Plain(s[x])
  {
    assert s[x] == s[lo..hi][x - lo];
  }

  lemma MatchesEmailShape(s: string)
    requires MatchesEmail(s)
    ensures EmailShape(s)
  {
    var i := AtIndex(s).value;
    var tail := s[i + 2..|s| - 1];
    var k :| 0 <= k < |tail| && tail[k] == '.';
    var j := i + 2 + k;
    assert s[j] == '.';
    forall x | 0 <= x < |s| && x != i
      ensures Plain(s[x])
    {
      if x < i {
        assert s[..i][x] == s[x];
      } else {
        assert s[i + 1..][x - i - 1] == s[x];
      }
    }
    PlainSlice(s, 0, i);
    PlainSlice(s, i + 1, j);
    PlainSlice(s, j + 1, |s|);
  }

  /** A string that is plain except for one '@' has that '@' as its first,
      none after it and no white space. */
  lemma SingleAt(s: string, i: int)
    requires 0 <= i < |s| && s[i] == '@'
    requires forall x :: 0 <= x < |s| && x != i ==> Plain(s[x])
    ensures AtIndex(s) == Some(i) && '@' !in s[i + 1..]
    ensures forall k :: 0 <= k < |s| ==> !IsWhitespace(s[k])
  {
    forall x | i + 1 <= x < |s|
      ensures s[x] != '@'
    {
      assert Plain(s[x]);
    }
  }

  lemma ShapeMatchesEmail(s: string)
    requires EmailShape(s)
    ensures MatchesEmail(s)
  {
    var i, j :| 0 < i && i + 1 < j < |s| - 1 && s[i] == '@' && s[j] == '.'
      && AllPlain(s[..i]) && AllPlain(s[i + 1..j]) && AllPlain(s[j + 1..]);
    forall x | 0 <= x < |s| && x != i
      ensures Plain(s[x])
    {
      if x < i {
        PlainAt(s, 0, i, x);
      } else if i < x < j {
        PlainAt(s, i + 1, j, x);
      } else if j < x {
        PlainAt(s, j + 1, |s|, x);
      }
    }
    SingleAt(s, i);
    assert s[i + 2..|s| - 1][j - i - 2] == '.';
  }

  /** The test accepts exactly the strings of the pattern. */
  lemma MatchesEmailIff(s: string)
    ensures MatchesEmail(s) <==> EmailShape(s)
  {
    if MatchesEmail(s) {
      MatchesEmailShape(s);
    }
    if EmailShape(s) {
      ShapeMatchesEmail(s);
    }
  }

  // ---------------------------------------------------------------------
  // Validation

  /** A form that can be submitted: name and surname not blank, consent
      given, and for a coach a coach name that is not blank and an e-mail of
      the pattern. */
  ghost predicate Complete(d: FormData) {
    && Trim(d.nome) != [] && Trim(d.cognome) != [] && d.consenso
    && (d.isCoach ==> Trim(d.coachName) != [] && EmailShape(d.coachEmail))
  }

  /** The outcome of each check validation makes on a form. */
  datatype Checks = Checks(
    nomeBlank: bool, cognomeBlank: bool, isCoach: bool, coachNameBlank: bool,
    coachEmailBlank: bool, coachEmailMatches: bool, consent: bool)

  function ChecksOf(d: FormData): Checks {
    Checks(Trim(d.nome) == [], Trim(d.cognome) == [], d.isCoach, Trim(d.coachName) == [],
           Trim(d.coachEmail) == [], MatchesEmail(d.coachEmail), d.consenso)
  }

  /** The errors recorded for the outcome of the checks: one per failed
      check, with its message, and no other. */
  predicate ReportedFor(e: map<Field, string>, c: Checks) {
    && e.Keys <= {Nome, Cognome, CoachName, CoachEmail, Consenso}
    && (Nome in e <==> c.nomeBlank) && (Nome in e ==> e[Nome] == NomeRequired)
    && (Cognome in e <==> c.cognomeBlank) && (Cognome in e ==> e[Cognome] == CognomeRequired)
    && (CoachName in e <==> c.isCoach && c.coachNameBlank)
    && (CoachName in e ==> e[CoachName] == CoachNameRequired)
    && (CoachEmail in e <==> c.isCoach && (c.coachEmailBlank || !c.coachEmailMatches))
    && (CoachEmail in e ==> e[CoachEmail] == if c.coachEmailBlank then CoachEmailRequired else CoachEmailInvalid)
    && (Consenso in e <==> !c.consent) && (Consenso in e ==> e[Consenso] == ConsentRequired)
  }

  /** The errors validation records for a form. */
  predicate Reported(e: map<Field, string>, d: FormData) {
    ReportedFor(e, ChecksOf(d))
  }

  /** The recorded errors are empty exactly when the form is complete. */
  lemma ReportedEmptyIff(e: map<Field, string>, d: FormData)
    requires Reported(e, d)
    ensures e == map[] <==> Complete(d)
  {
    MatchesEmailIff(d.coachEmail);
    if d.isCoach && EmailShape(d.coachEmail) {
      var i :| 0 <= i < |d.coachEmail| && d.coachEmail[i] == '@';
      TrimEmptyIff(d.coachEmail);
    }
    if e != map[] {
      var f :| f in e;
    }
  }

  /** A logo file as chosen: its size in bytes and its content as a data URL. */
  datatype LogoFile = LogoFile(size: nat, dataUrl: string)

  /** A checkbox state. */
  datatype CheckState = Checked | Unchecked | Indeterminate

  /** The report the form asks for. */
  datatype CoachData = CoachData(isCoach: bool, name: Option<string>, company: Option<string>, email: Option<string>, logo: Option<string>)
  datatype ReportRequest = ReportRequest(nome: string, cognome: string, email: string, pesoKg: real, coach: CoachData, palette: string)

  /** What a submission comes to. */
  datatype Submission = FormRejected | ModelsRejected | GenerationFailed | Generated(request: ReportRequest)

  /** An empty text as absent. */
  function NonEmpty(s: string): (r: Option<string>)
    ensures r.Some? <==> s != []
    ensures r.Some? ==> r.value == s
  {
    if s == [] then None else Some(s)
  }

  /** Lower case, for the ASCII letters. */
  function Lower(s: string): (r: string)
    ensures |r| == |s|
    ensures forall k :: 0 <= k < |s| ==> r[k] == if 'A' <= s[k] <= 'Z' then (s[k] as int + 32) as char else s[k]
  {
    if s == [] then []
    else [if 'A' <= s[0] <= 'Z' then (s[0] as int + 32) as char else s[0]] + Lower(s[1..])
  }

  /** The request built from a form and the body weight: the placeholder
      e-mail "name.surname@report.local" in lower case, the weight with 70
      kg for a missing one, and each coach text only when it is not empty. */
  function RequestOf(d: FormData, weight: real): (r: ReportRequest)
    requires weight >= 0.0
    ensures r.pesoKg > 0.0 && (weight > 0.0 ==> r.pesoKg == weight)
    ensures |r.email| >= 13 && r.email[|r.email| - 13..] == "@report.local"
    ensures r.coach.isCoach == d.isCoach && (r.coach.email.Some? <==> d.coachEmail != [])
  {
    var prefix := Lower(d.nome) + "." + Lower(d.cognome);
    var email := prefix + "@report.local";
    assert email[|prefix|..] == "@report.local";
    ReportRequest(d.nome, d.cognome, email, PdfReport.PesoKg(weight),
                  CoachData(d.isCoach, NonEmpty(d.coachName), NonEmpty(d.coachCompany), NonEmpty(d.coachEmail), NonEmpty(d.coachLogo)),
                  d.colorPalette)
  }

  /** The form with a text field set. */
  function WithText(d: FormData, f: Field, value: string): FormData
    requires IsTextField(f)
  {
    match f
    case Nome => d.(nome := value)
    case Cognome => d.(cognome := value)
    case CoachName => d.(coachName := value)
    case CoachCompany => d.(coachCompany := value)
    case CoachEmail => d.(coachEmail := value)
    case CoachLogo => d.(coachLogo := value)
    case ColorPalette => d.(colorPalette := value)
  }

  /** The body of `validateForm`: one error per failed check, added in the
      order of the checks. */
  method CollectErrors(c: Checks) returns (newErrors: map<Field, string>)
    ensures ReportedFor(newErrors, c)
  {
    newErrors := map[];
    if c.nomeBlank {
      newErrors := newErrors[Nome := NomeRequired];
    }
    if c.cognomeBlank {
      newErrors := newErrors[Cognome := CognomeRequired];
    }
    if c.isCoach {
      if c.coachNameBlank {
        newErrors := newErrors[CoachName := CoachNameRequired];
      }
      if c.coachEmailBlank {
        newErrors := newErrors[CoachEmail := CoachEmailRequired];
      } else if !c.coachEmailMatches {
        newErrors := newErrors[CoachEmail := CoachEmailInvalid];
      }
    }
    if !c.consent {
      newErrors := newErrors[Consenso := ConsentRequired];
    }
  }

  /** The form state and its field errors. */
  class LeadForm {
    var data: FormData
    var errors: map<Field, string>

    constructor ()
      ensures data == Defaults && errors == map[]
    {
      data := Defaults;
      errors := map[];
    }

    /** `validateForm`: records the errors of the current form, replacing
        the previous ones, and tells whether there are none. */
    method ValidateForm() returns (ok: bool)
      modifies this
      ensures data == old(data)
      ensures Reported(errors, data)
      ensures ok <==> Complete(data)
    {
      var newErrors := CollectErrors(ChecksOf(data));
      ReportedEmptyIff(newErrors, data);
      errors := newErrors;
      ok := |newErrors| == 0;
    }

    /** `handleInputChange`: sets a text field and clears that field's error
        only. */
    method HandleInputChange(f: Field, value: string)
      requires IsTextField(f)
      modifies this
      ensures data == WithText(old(data), f, value)
      ensures errors == old(errors) - {f}
    {
      data := WithText(data, f, value);
      errors := errors - {f};
    }

    /** `handleFileChange`: a logo over 2 MB records an error and leaves the
        form as it is; a smaller one becomes the coach logo and clears the
        logo error; no file changes nothing. */
    method HandleFileChange(file: Option<LogoFile>)
      modifies this
      ensures file.None? ==> data == old(data) && errors == old(errors)
      ensures file.Some? && file.value.size > MaxLogoBytes ==>
        data == old(data) && errors == old(errors)[CoachLogo := LogoTooLarge]
      ensures file.Some? && file.value.size <= MaxLogoBytes ==>
        data == old(data).(coachLogo := file.value.dataUrl) && errors == old(errors) - {CoachLogo}
    {
      if file.Some? {
        if file.value.size > 2 * 1024 * 1024 {
          errors := errors[CoachLogo := LogoTooLarge];
          return;
        }
        data := data.(coachLogo := file.value.dataUrl);
        errors := errors - {CoachLogo};
      }
    }

    /** `handleCheckboxChange`: only a checked box counts as true; the
        field's error is cleared; unticking "coach" also empties the coach
        name, company, e-mail and logo. */
    method HandleCheckboxChange(f: Field, checked: CheckState)
      requires f == Consenso || f == IsCoach
      modifies this
      ensures f == Consenso ==> data == old(data).(consenso := checked == Checked)
      ensures f == IsCoach && checked == Checked ==> data == old(data).(isCoach := true)
      ensures f == IsCoach && checked != Checked ==>
        data == old(data).(isCoach := false, coachName := "", coachCompany := "", coachEmail := "", coachLogo := "")
      ensures errors == old(errors) - {f}
    {
      var value := checked == Checked;
      if f == Consenso {
        data := data.(consenso := value);
      } else {
        data := data.(isCoach := value);
      }
      errors := errors - {f};
      if f == IsCoach && !value {
        data := data.(isCoach := false, coachName := "", coachCompany := "", coachEmail := "", coachLogo := "");
      }
    }

    /** `handleSubmit`: validates first and stops on an incomplete form, then
        stops on a refused fit; otherwise asks for the report, and when it
        is produced resets the form to its defaults. Whether the generation
        succeeds is given as `produced`. */
    method HandleSubmit(modelsValid: bool, weight: real, produced: bool) returns (outcome: Submission)
      requires weight >= 0.0
      modifies this
      ensures Reported(errors, old(data))
      ensures !Complete(old(data)) ==> outcome == FormRejected && data == old(data)
      ensures Complete(old(data)) && !modelsValid ==> outcome == ModelsRejected && data == old(data)
      ensures Complete(old(data)) && modelsValid && !produced ==> outcome == GenerationFailed && data == old(data)
      ensures Complete(old(data)) && modelsValid && produced ==>
        outcome == Generated(RequestOf(old(data), weight)) && data == Defaults
    {
      var ok := ValidateForm();
      if !ok {
        return FormRejected;
      }
      if !modelsValid {
        return ModelsRejected;
      }
      var request := RequestOf(data, weight);
      if !produced {
        return GenerationFailed;
      }
      data := Defaults;
      outcome := Generated(request);
    }
  }
}
