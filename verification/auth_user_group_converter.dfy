/** AuthUserGroupConverter: the JPA attribute converter between the enum and its column text. */
module AuthUserGroupConverter {
  import opened Wrappers
  import opened Text
  import opened Exceptions
  import opened AuthUserGroups

  /**
   * convertToDatabaseColumn: the column holds the label, which converts back to the constant;
   * a null attribute makes getLabel throw NullPointerException.
   */
  function ConvertToDatabaseColumn(attribute: Option<AuthUserGroupEnum>): (column: Result<string, Exception>)
    ensures attribute.None? <==> column == Failure(NullPointerException)
    ensures attribute.Some? ==> column.Success? && ConvertToEntityAttribute(Some(column.value)) == attribute
  {
    match attribute
    case None => Failure(NullPointerException)
    case Some(e) =>
      FindByOwnLabel(e);
      Success(e.GetLabel())
  }

  /**
   * convertToEntityAttribute: findByLabel of the column text. Text equal to a label ignoring
   * case comes back as that constant, whose column text is then the canonical label; anything
   * else, and a null column, becomes null.
   */
  function ConvertToEntityAttribute(column: Option<string>): (r: Option<AuthUserGroupEnum>)
    ensures r.Some? ==> column.Some? && EqualsIgnoreCase(r.value.GetLabel(), column.value)
    ensures r.None? <==> column.None? || forall g: AuthUserGroupEnum :: !EqualsIgnoreCase(g.GetLabel(), column.value)
  {
    FindByLabel(column)
  }

  /** Round trip: toEntity(toColumn(g)) == g for every constant. */
  lemma EntityColumnRoundTrip(g: AuthUserGroupEnum)
    ensures ConvertToEntityAttribute(Some(ConvertToDatabaseColumn(Some(g)).value)) == Some(g)
  {
  }

  /** A column read back and written again comes out as the canonical label of what it matched. */
  lemma ColumnNormalised(column: string)
    requires ConvertToEntityAttribute(Some(column)).Some?
    ensures EqualsIgnoreCase(ConvertToDatabaseColumn(ConvertToEntityAttribute(Some(column))).value, column)
    ensures ConvertToEntityAttribute(Some(ConvertToDatabaseColumn(ConvertToEntityAttribute(Some(column))).value))
            == ConvertToEntityAttribute(Some(column))
  {
  }

  lemma ConverterExamples()
    ensures ConvertToEntityAttribute(Some("csr_admin")) == Some(CSR_ADMIN)
    ensures ConvertToDatabaseColumn(Some(ConvertToEntityAttribute(Some("csr_admin")).value)).value == "CSR_ADMIN"
    ensures ConvertToEntityAttribute(Some("ADMIN")) == None
    ensures ConvertToDatabaseColumn(ConvertToEntityAttribute(Some("ADMIN"))) == Failure(NullPointerException)
  {
    assert EqualsIgnoreCase("CSR_ADMIN", "csr_admin");
    assert |"ADMIN"| == 5;
  }
}
