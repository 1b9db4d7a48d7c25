/** The exceptions the modelled code throws, as values. */
module Results {

  datatype Option<T> = None | Some(value: T)

  datatype Result<T, E> = Ok(value: T) | Err(error: E)

  datatype Outcome<E> = Pass | Fail(error: E)

  /** Each `throw` in the modelled code, and the TypeErrors that reading a missing object raises. */
  datatype Error =
    | InvalidBufferSize        // FFT.calculateSpectrum: size is not a power of two
    | SegmentSizeMismatch      // FFT.calculateSpectrum: segment.length != bufferSize
    | NotAnAudioBuffer         // Spectrogram.draw: argument is not an AudioBuffer
    | NoPlayheadLayer          // TypeError: reading a property of the missing playhead layer
    | NoAudioBuffer            // TypeError: reading sampleRate before any audio buffer was drawn
    | NotAFunction             // TypeError: calling a method the object does not define
}
