/** DifficultyConverter: the JPA attribute converter between the enum and its column text. */
module DifficultyConverter {
  import opened Wrappers
  import opened Text
  import opened Exceptions
  import opened Difficulties

  /**
   * convertToDatabaseColumn: the column holds the label, which converts back to the constant;
   * a null attribute makes getLabel throw NullPointerException.
   */
  function ConvertToDatabaseColumn(difficulty: Option<DifficultyEnum>): (column: Result<string, Exception>)
    ensures difficulty.None? <==> column == Failure(NullPointerException)
    ensures difficulty.Some? ==> column.Success? && ConvertToEntityAttribute(Some(column.value)) == difficulty
  {
    match difficulty
    case None => Failure(NullPointerException)
    case Some(e) =>
      FindByOwnLabel(e);
      Success(e.GetLabel())
  }

  /**
   * convertToEntityAttribute: findByLabel of the column text. Text equal to a label ignoring
   * case comes back as that constant; anything else, and a null column, becomes null.
   */
  function ConvertToEntityAttribute(column: Option<string>): (r: Option<DifficultyEnum>)
    ensures r.Some? ==> column.Some? && EqualsIgnoreCase(r.value.GetLabel(), column.value)
    ensures r.None? <==> column.None? || forall d: DifficultyEnum :: !EqualsIgnoreCase(d.GetLabel(), column.value)
  {
    FindByLabel(column)
  }

  /** Round trip: toEntity(toColumn(d)) == d for every constant. */
  lemma EntityColumnRoundTrip(d: DifficultyEnum)
    ensures ConvertToEntityAttribute(Some(ConvertToDatabaseColumn(Some(d)).value)) == Some(d)
  {
  }

  /** A column read back and written again comes out as the canonical label of what it matched. */
  lemma ColumnNormalised(column: string)
    requires ConvertToEntityAttribute(Some(column)).Some?
    ensures EqualsIgnoreCase(ConvertToDatabaseColumn(ConvertToEntityAttribute(Some(column))).value, column)
    ensures ConvertToEntityAttribute(Some(ConvertToDatabaseColumn(ConvertToEntityAttribute(Some(column))).value))
            == ConvertToEntityAttribute(Some(column))
  {
  }

  lemma ConverterExamples()
    ensures ConvertToEntityAttribute(Some("medium")) == Some(Medium)
    ensures ConvertToDatabaseColumn(Some(ConvertToEntityAttribute(Some("medium")).value)).value == "Medium"
    ensures ConvertToEntityAttribute(Some("Extreme")) == None
    ensures ConvertToDatabaseColumn(ConvertToEntityAttribute(Some("Extreme"))) == Failure(NullPointerException)
  {
    assert EqualsIgnoreCase("Medium", "medium");
    assert !EqualsIgnoreCase("Varies", "medium") by { assert ToUpperAscii("Varies"[0]) != ToUpperAscii("medium"[0]); }
    assert ConvertToEntityAttribute(Some("Extreme")) == None by { assert |"Extreme"| == 7; }
  }
}
