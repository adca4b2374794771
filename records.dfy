/** The salary record that every stage of the preparation pipeline works on,
    and the identity key that deduplication compares. */
module Records {

  datatype Option<T> = None | Some(value: T)

  /** Rust's `u8`: the element type of one-hot vectors and derived scores. */
  type u8 = x: int | 0 <= x < 256

  /** One parsed row of the salary table. Only the columns the pipeline reads
      are modelled; the salary is carried along as an opaque value. */
  datatype Record = Record(
    work_year: int,
    job_title: string,
    experience_level: string,
    company_size: string,
    company_location: string,
    remote_ratio: int,
    salary_in_usd: real)

  /** The identity key `(work_year, job_title, company_location)`. */
  type Key = (int, string, string)

  function KeyOf(r: Record): Key {
    (r.work_year, r.job_title, r.company_location)
  }

  /** A record with its experience level rewritten by `lower`. */
  function Lowered(r: Record, lower: string -> string): Record {
    r.(experience_level := lower(r.experience_level))
  }
}
