/** When a transform builds tables, and how large they are then (soxr-sys/src/fft4g.c, lines
    349-359). */
module TableSizes {

  predicate TakesMakewt(len: nat, nw: nat) {
    len > 4 * nw
  }

  predicate TakesMakect(len: nat, nw: nat, nc: nat) {
    len > 4 * (if TakesMakewt(len, nw) then 1 else nc)
  }

  /** The sizes after a call for len cells; makewt leaves 1 in ip[1]. */
  function Tables(len: nat, nw: nat, nc: nat): (nat, nat) {
    (if TakesMakewt(len, nw) then len / 4 else nw,
     if TakesMakect(len, nw, nc) then len / 4 else if TakesMakewt(len, nw) then 1 else nc)
  }
}
