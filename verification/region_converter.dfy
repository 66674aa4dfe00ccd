/** RegionConverter: the JPA attribute converter between the enum and its column text. */
module RegionConverter {
  import opened Wrappers
  import opened Text
  import opened Exceptions
  import opened Regions

  /**
   * convertToDatabaseColumn: the column holds the spaced label, which converts back to the constant;
   * a null attribute makes getLabel throw NullPointerException.
   */
  function ConvertToDatabaseColumn(region: Option<RegionEnum>): (column: Result<string, Exception>)
    ensures region.None? <==> column == Failure(NullPointerException)
    ensures region.Some? ==> column.Success? && ConvertToEntityAttribute(Some(column.value)) == region
  {
    match region
    case None => Failure(NullPointerException)
    case Some(e) =>
      FindByOwnLabel(e);
      Success(e.GetLabel())
  }

  /**
   * convertToEntityAttribute: findByLabel of the column text. Text equal to a label ignoring
   * case comes back as that constant; anything else, and a null column, becomes null.
   */
  function ConvertToEntityAttribute(column: Option<string>): (r: Option<RegionEnum>)
    ensures r.Some? ==> column.Some? && EqualsIgnoreCase(r.value.GetLabel(), column.value)
    ensures r.None? <==> column.None? || forall g: RegionEnum :: !EqualsIgnoreCase(g.GetLabel(), column.value)
  {
    FindByLabel(column)
  }

  /** Round trip: toEntity(toColumn(r)) == r for every constant. */
  lemma EntityColumnRoundTrip(r: RegionEnum)
    ensures ConvertToEntityAttribute(Some(ConvertToDatabaseColumn(Some(r)).value)) == Some(r)
  {
  }

  /** A column read back and written again comes out as the canonical label of what it matched. */
  lemma ColumnNormalised(column: string)
    requires ConvertToEntityAttribute(Some(column)).Some?
    ensures EqualsIgnoreCase(ConvertToDatabaseColumn(ConvertToEntityAttribute(Some(column))).value, column)
    ensures ConvertToEntityAttribute(Some(ConvertToDatabaseColumn(ConvertToEntityAttribute(Some(column))).value))
            == ConvertToEntityAttribute(Some(column))
  {
  }

  /** A column holding a constant's name, such as "East_Coast", converts to null, which cannot be written back. */
  lemma ConstantNameColumn()
    ensures ConvertToEntityAttribute(Some("East_Coast")) == None
    ensures ConvertToDatabaseColumn(ConvertToEntityAttribute(Some("East_Coast"))) == Failure(NullPointerException)
  {
    FindByConstantName();
  }

  /** An upper-case column converts, and is written back in its canonical spelling. */
  lemma UpperCaseColumn()
    ensures ConvertToEntityAttribute(Some("CENTRAL COAST")) == Some(Central_Coast)
    ensures ConvertToDatabaseColumn(Some(Central_Coast)).value == "Central Coast"
  {
    assert EqualsIgnoreCase("Central Coast", "CENTRAL COAST");
  }
}
