/**
 * The audit log of the bot: a JSON array of five-field records kept in one
 * file, extended by reading the whole array, appending one record and writing
 * the whole array back.
 */
module AuditLog {

  datatype Option<T> = None | Some(value: T)

  /**
   * One logged exchange. `date` is the instant of the message in seconds; the
   * record holds it where the file holds its string form. `username` is absent
   * for a user without one.
   */
  datatype Record = Record(
    date: int,
    userId: int,
    username: Option<string>,
    message: string,
    answer: string)

  /** The log file, holding its array of records in the order written. */
  class Log {
    var records: seq<Record>

    /** A log whose file already holds `initial` (possibly the empty array). */
    constructor (initial: seq<Record>)
      ensures records == initial
    {
      records := initial;
    }

    /** Reads the whole array back; reading changes nothing. */
    method Load() returns (data: seq<Record>)
      ensures data == records
    {
      data := records;
    }

    /** Rewrites the whole file with `data`. */
    method Store(data: seq<Record>)
      modifies this
      ensures records == data
    {
      records := data;
    }

    /** Builds the record from its five arguments and appends it to the file. */
    method WriteJson(date: int, userId: int, username: Option<string>, message: string, answer: string)
      modifies this
      ensures records == old(records) + [Record(date, userId, username, message, answer)]
      ensures |records| == |old(records)| + 1
      ensures records[..|old(records)|] == old(records)
      ensures records[|records| - 1] == Record(date, userId, username, message, answer)
    {
      var entry := Record(date, userId, username, message, answer);
      var data := Load();
      data := data + [entry];
      Store(data);
      assert records[..|old(records)|] == old(records);
    }
  }
}
