/** The vocabulary every tier speaks (engine/tier/tier.go). */
module Tiers {

  newtype byte = x: int | 0 <= x < 256

  type Body = seq<byte>

  datatype Meta = Meta(size: int, modTime: int, contentType: string, immutable: bool)

  /** An object: what a tier holds for a key. */
  datatype Object = Object(body: Body, meta: Meta)

  /** Broken stands for every failure that is none of the three named ones. */
  datatype Error = NotFound | Exists | NoSpace | Broken

  datatype Result<T> = Ok(value: T) | Err(error: Error)

  /** How far a write gets: it is cancelled before it does anything, it breaks on the way, or not. */
  datatype Trouble = Cancelled | Breaks | Works

  datatype Option<T> = None | Some(value: T)

  /** A tier records the length it stored, whatever the caller claimed. */
  function Stored(body: Body, m: Meta): (o: Object)
    ensures o.meta.size == |o.body|
  {
    Object(body, m.(size := |body|))
  }
}
