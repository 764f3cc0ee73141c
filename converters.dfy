/** User-supplied encoders and decoders (`com.soulwarelabs.jparley.Converter`).
    Their code is not part of this model: a converter is only an identity,
    and what `converter.process(connection, value)` does on the connection in
    use is a function supplied by the caller of the bulk operations. */
module Converters {
  import opened Wrappers
  import opened Lang

  datatype Converter = Converter(id: nat)

  /** `(c, v) => c.process(connection, v)` for one fixed connection; it may throw. */
  type Process = (Converter, Datum) -> Result<Datum>

  /** Runs the optional converter, or passes the raw value through when there is none. */
  function Apply(converter: Option<Converter>, v: Datum, process: Process): Result<Datum>
  {
    match converter
    case None => Ok(v)
    case Some(c) => process(c, v)
  }
}
