// Time ranges of the editorial contracts, shared by the matcher and by range
// normalisation (app/analysis/editorial_contracts.py).

module TimeRanges {

  // A pair of seconds relative to the start of a session, before validation.
  datatype RawRange = RawRange(startS: real, endS: real) {

    // What the contract's validators accept: no negative start, no empty or
    // inverted range.
    predicate Accepted() {
      0.0 <= startS && startS < endS
    }

    ghost predicate Covers(t: real) {
      startS <= t <= endS
    }

    ghost predicate Interior(t: real) {
      startS < t < endS
    }

    predicate Contains(other: RawRange) {
      startS <= other.startS && other.endS <= endS
    }
  }

  type TimeRange = r: RawRange | r.Accepted() witness RawRange(0.0, 1.0)

}
