/** image_processing.py: the darkening step of the light detector, which
    blacks out every pixel of a greyscale image darker than 150. */
module ImageProcessing {
  const DarkThreshold := 150

  /** What happens to one pixel. */
  function Darkened(v: int): (r: int)
    ensures v < DarkThreshold ==> r == 0
    ensures v >= DarkThreshold ==> r == v
  {
    if v < DarkThreshold then 0 else v
  }

  /** Darkening twice is darkening once, and what is left is black or at
      least 150. */
  lemma DarkenedIdempotent(v: int)
    ensures Darkened(Darkened(v)) == Darkened(v)
    ensures Darkened(v) == 0 || Darkened(v) >= DarkThreshold
  {
  }

  /** dark_pixels_to_black(im_arr): row by row, in place; the same array is
      returned. len(im_arr[0]) raises IndexError for an image without rows,
      which is when ok is false and nothing changes. */
  method DarkPixelsToBlack(im: array2<int>) returns (ok: bool, result: array2<int>)
    modifies im
    ensures result == im && (ok <==> im.Length0 > 0)
    ensures forall row, col | 0 <= row < im.Length0 && 0 <= col < im.Length1 ::
      im[row, col] == Darkened(old(im[row, col]))
  {
    result := im;
    if im.Length0 == 0 {
      return false, im;
    }
    ok := true;
    var height, width := im.Length0, im.Length1;
    for row := 0 to height
      invariant forall r, c | 0 <= r < row && 0 <= c < width :: im[r, c] == Darkened(old(im[r, c]))
      invariant forall r, c | row <= r < height && 0 <= c < width :: im[r, c] == old(im[r, c])
    {
      for col := 0 to width
        invariant forall r, c | 0 <= r < row && 0 <= c < width :: im[r, c] == Darkened(old(im[r, c]))
        invariant forall c | 0 <= c < col :: im[row, c] == Darkened(old(im[row, c]))
        invariant forall r, c | row <= r < height && 0 <= c < width && (r > row || c >= col) :: im[r, c] == old(im[r, c])
      {
        if im[row, col] < DarkThreshold {
          im[row, col] := 0;
        }
      }
    }
  }
}
