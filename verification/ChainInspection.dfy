/** What the inspection of an archive accepts, and what each of its complaints is about,
    told of the rows themselves. */
module ChainInspection {
  import opened Wrappers
  import opened Text
  import opened ChecklistDefinition
  import opened ChecklistArchive

  // ---------------------------------------------------------------- sound rows

  predicate SoundText(text: string, maximum: nat) {
    Trimmed(text) && 1 <= |text| <= maximum
  }

  predicate Readable(definition: Json) {
    Parse(definition).Some?
  }

  predicate SoundFields(t: Template) {
    IsUuidV4(t.id) && 1 <= t.version <= 2_147_483_647 && SoundText(t.title, 150)
  }

  /** A published row names its publisher, a baseline nobody. */
  predicate SoundRow(row: Version) {
    && 1 <= row.version <= 2_147_483_647 && SoundText(row.title, 150)
    && match row.source
       case Baseline => row.actorId.None? && row.actorName.None?
       case Published =>
         && row.actorId.Some? && IsUuidV4(row.actorId.value)
         && row.actorName.Some? && SoundText(row.actorName.value, 100)
  }

  lemma SoundTextIff(text: string, maximum: nat)
    ensures SoundText(text, maximum) <==> ValidText(text, maximum)
  {
    TrimIsIdempotent(text);
  }

  lemma RowCodeMeans(row: Version)
    ensures match RowCode(row)
            case None => SoundRow(row) && Readable(row.definition)
            case Some(code) =>
              if SoundRow(row) then code == InvalidDefinition && !Readable(row.definition)
              else code == InvalidArchivedVersion
  {
    SoundTextIff(row.title, 150);
    if row.actorName.Some? {
      SoundTextIff(row.actorName.value, 100);
    }
  }

  lemma TemplateCodeMeans(t: Template)
    ensures match TemplateCode(t)
            case None => SoundFields(t) && Readable(t.definition)
            case Some(code) =>
              if SoundFields(t) then code == InvalidDefinition && !Readable(t.definition)
              else code == InvalidCurrentTemplate
  {
    SoundTextIff(t.title, 150);
  }

  // ---------------------------------------------------------------- sound chains

  /** The row is the template as it is now. */
  predicate IsCurrent(row: Version, t: Template) {
    && row.title == t.title && row.definition == t.definition && row.isActive == t.isActive
    && row.publishedAt == t.updatedAt
  }

  /** The k-th row stands where it should: its number follows, nothing lies below a baseline,
      and the newest row is the template. */
  predicate InPlace(t: Template, rows: Archive, k: nat)
    requires k < |rows|
  {
    && rows[k].version == t.version - k
    && (k > 0 ==> rows[k - 1].source == Published)
    && (k == 0 ==> IsCurrent(rows[0], t))
  }

  /** The chain reaches the first version or ends in a baseline. */
  predicate Ends(rows: Archive) {
    rows != [] ==> rows[|rows| - 1].source == Baseline || rows[|rows| - 1].version == 1
  }

  predicate SoundAt(t: Template, rows: Archive, k: nat)
    requires k < |rows|
  {
    SoundRow(rows[k]) && Readable(rows[k].definition) && InPlace(t, rows, k)
  }

  lemma AcceptableIff(t: Template, rows: Archive)
    requires forall k :: 0 <= k < |rows| ==>
               (RowCode(rows[k]).None? <==> SoundRow(rows[k]) && Readable(rows[k].definition))
    ensures Chain(t, rows, RowCode) <==> Ends(rows) && forall k :: 0 <= k < |rows| ==> SoundAt(t, rows, k)
  {
    ChainIff(t, rows, RowCode);
    forall k | 0 <= k < |rows|
      ensures SoundAt(t, rows, k) <==> RowCode(rows[k]).None? && InPlace(t, rows, k)
    {
    }
    if forall k :: 0 <= k < |rows| ==> SoundAt(t, rows, k) {
      forall k | 0 <= k < |rows| ensures RowCode(rows[k]).None? && InPlace(t, rows, k) {
        assert SoundAt(t, rows, k);
      }
    }
  }

  /** Whatever a single row has to be like. */
  lemma ChainIff(t: Template, rows: Archive, validate: Validator)
    ensures Chain(t, rows, validate)
            <==> Ends(rows) && forall k :: 0 <= k < |rows| ==> validate(rows[k]).None? && InPlace(t, rows, k)
  {
    if Chain(t, rows, validate) {
      forall k | 0 <= k < |rows| ensures validate(rows[k]).None? && InPlace(t, rows, k) {
        if k > 0 {
          assert rows[k - 1].source == Published;
        }
      }
    }
    if Ends(rows) && forall k :: 0 <= k < |rows| ==> validate(rows[k]).None? && InPlace(t, rows, k) {
      forall k | 0 <= k < |rows| - 1 ensures rows[k].source == Published {
        assert InPlace(t, rows, k + 1);
      }
      assert rows != [] ==> InPlace(t, rows, 0);
    }
  }

  /** The inspection passes a sound template whose rows are all sound and in place down to
      their end; it asks for a baseline exactly when there are no rows. */
  lemma PassesIff(t: Template, rows: Archive)
    ensures Inspected(Some(t), rows).Ok?
            <==> && SoundFields(t) && Readable(t.definition) && Ends(rows)
                 && forall k :: 0 <= k < |rows| ==> SoundAt(t, rows, k)
    ensures Inspected(Some(t), rows).Ok? ==> (Inspected(Some(t), rows).value <==> rows == [])
  {
    InspectionAccepts(t, rows);
    TemplateCodeMeans(t);
    forall k | 0 <= k < |rows|
      ensures RowCode(rows[k]).None? <==> SoundRow(rows[k]) && Readable(rows[k].definition)
    {
      RowCodeMeans(rows[k]);
    }
    AcceptableIff(t, rows);
  }

  // ---------------------------------------------------------------- what is complained of

  /** The first k rows are in order, and the row after them is wrong in this way. */
  predicate Breaks(t: Template, rows: Archive, validate: Validator, p: Progress, k: nat, code: Code) {
    && k < |rows|
    && (forall j :: 0 <= j < k ==> validate(rows[j]).None? && rows[j].version == p.expected - j)
    && (validate(rows[k]) == Some(code)
        || (&& validate(rows[k]).None?
            && var follows := && rows[k].version == p.expected - k
                              && if k > 0 then rows[k - 1].source == Published else !p.baselineSeen;
               if !follows then code == VersionGap
               else code == CurrentMismatch && k == 0 && !p.found && !IsCurrent(rows[0], t)))
  }

  lemma {:induction false} ScanBreaks(rows: Archive, t: Template, validate: Validator, p: Progress)
    requires Scan(rows, t, validate, p).Err?
    ensures exists k: nat :: Breaks(t, rows, validate, p, k, Scan(rows, t, validate, p).error)
    decreases |rows|
  {
    var next, code := Check(rows[0], t, validate, p), Scan(rows, t, validate, p).error;
    if next.Err? {
      assert Breaks(t, rows, validate, p, 0, code);
    } else {
      ScanBreaks(rows[1..], t, validate, next.value);
      var k: nat :| Breaks(t, rows[1..], validate, next.value, k, code);
      forall j | 0 <= j < k + 1 ensures validate(rows[j]).None? && rows[j].version == p.expected - j {
        assert j > 0 ==> rows[j] == rows[1..][j - 1];
      }
      assert rows[1..][k] == rows[k + 1] && (k > 0 ==> rows[1..][k - 1] == rows[k]);
      assert Breaks(t, rows, validate, p, k + 1, code);
    }
  }

  /** What is wrong with a row, the rows above it being in order. */
  predicate WrongAt(t: Template, rows: Archive, k: nat, code: Code) {
    && k < |rows|
    && (forall j :: 0 <= j < k ==>
          SoundRow(rows[j]) && Readable(rows[j].definition) && rows[j].version == t.version - j)
    && match code
       case InvalidArchivedVersion => !SoundRow(rows[k])
       case InvalidDefinition => SoundRow(rows[k]) && !Readable(rows[k].definition)
       case VersionGap =>
         && SoundRow(rows[k]) && Readable(rows[k].definition)
         && (rows[k].version != t.version - k || (k > 0 && rows[k - 1].source == Baseline))
       case CurrentMismatch =>
         k == 0 && SoundRow(rows[0]) && Readable(rows[0].definition) && !IsCurrent(rows[0], t)
       case _ => false
  }

  /** Each complaint of the inspection is about the template, the first row that is wrong, or
      a chain that ends too early. */
  lemma ComplaintMeans(template: Option<Template>, rows: Archive)
    requires Inspected(template, rows).Err?
    ensures var code := Inspected(template, rows).error;
            match template
            case None => code == TemplateChanged
            case Some(t) =>
              if !SoundFields(t) then code == InvalidCurrentTemplate
              else if !Readable(t.definition) then code == InvalidDefinition
              else || (exists k: nat :: WrongAt(t, rows, k, code))
                   || (&& code == VersionGap && !Ends(rows)
                       && forall k :: 0 <= k < |rows| ==> SoundAt(t, rows, k))
  {
    if template.Some? {
      var t := template.value;
      TemplateCodeMeans(t);
      if TemplateCode(t).None? {
        var scan := Scan(rows, t, RowCode, Start(t));
        forall k | 0 <= k < |rows|
          ensures match RowCode(rows[k])
                  case None => SoundRow(rows[k]) && Readable(rows[k].definition)
                  case Some(code) =>
                    if SoundRow(rows[k]) then code == InvalidDefinition && !Readable(rows[k].definition)
                    else code == InvalidArchivedVersion
        {
          RowCodeMeans(rows[k]);
        }
        if scan.Err? {
          ScanBreaks(rows, t, RowCode, Start(t));
          var k: nat :| Breaks(t, rows, RowCode, Start(t), k, scan.error);
          assert WrongAt(t, rows, k, scan.error);
        } else {
          ScanAccepts(rows, t, RowCode, Start(t));
          forall k | 0 <= k < |rows| ensures SoundAt(t, rows, k) {
            if k > 0 {
              assert rows[k - 1].source == Published;
            }
          }
        }
      }
    }
  }
}
