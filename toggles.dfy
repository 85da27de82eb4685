/**
 * The mute and blur buttons. Each holds one bit (the audio element's `muted`
 * flag, the button's `nsfw_blurred` class); a click flips it and then sets the
 * tooltip, border colour, background colour and icon from the new value.
 */
module Toggles {
  import opened Locale

  const AlarmBellIcon := "file=extensions/timer/__files__/icon/alarm-bell.svg"
  const AlarmBellCancelledIcon := "file=extensions/timer/__files__/icon/alarm-bell-cancelled.svg"
  const EyeIcon := "file=extensions/timer/__files__/icon/eye.svg"
  const EyeCancelledIcon := "file=extensions/timer/__files__/icon/eye-cancelled.svg"

  /** Border and background when the bit is on (muted, blurred) and when it is off. */
  const OnBorder := "#FF005D"
  const OffBorder := "#00FF8C"
  const OnBackground := "rgba(255, 0, 93, 0.08)"
  const OffBackground := "rgba(0, 255, 140, 0.08)"

  const BlurredClass := "nsfw_blurred"
  const GalleryBlurClass := "anxety_blur"

  /** The derived fields of a button: `title`, `style.borderColor`, `style.backgroundColor` and the image's `src`. */
  datatype Look = Look(title: string, borderColor: string, backgroundColor: string, icon: string)

  function MuteLook(t: Strings, muted: bool): Look {
    if muted then Look(t.unmuteTooltip, OnBorder, OnBackground, AlarmBellCancelledIcon)
    else Look(t.muteTooltip, OffBorder, OffBackground, AlarmBellIcon)
  }

  function BlurLook(t: Strings, blurred: bool): Look {
    if blurred then Look(t.unblurTooltip, OnBorder, OnBackground, EyeCancelledIcon)
    else Look(t.blurTooltip, OffBorder, OffBackground, EyeIcon)
  }

  /** The audio element and the mute button that controls it. */
  class MuteButton {
    const t: Strings
    /** `audio.muted`. */
    var muted: bool
    var look: Look

    /** The button as the widget builds it: the not-muted look, whatever the audio's flag. */
    constructor(t: Strings, muted: bool)
      ensures this.t == t && this.muted == muted && look == MuteLook(t, false)
    {
      this.t := t;
      this.muted := muted;
      look := MuteLook(t, false);
    }

    /** The look agrees with the audio element's flag. */
    predicate Consistent()
      reads this
    {
      look == MuteLook(t, muted)
    }

    /** `toggleNotification`: flip `muted`, then restyle; the result says whether `audio.play()` is called. */
    method Toggle() returns (plays: bool)
      modifies this
      ensures muted == !old(muted) && look == MuteLook(t, muted)
      ensures Consistent()
      ensures plays == !muted
    {
      muted := !muted;
      plays := !muted;
      look := MuteLook(t, muted);
    }
  }

  /** Two clicks on a consistent mute button restore the flag and every derived field. */
  method MuteTwice(b: MuteButton)
    requires b.Consistent()
    modifies b
    ensures b.muted == old(b.muted) && b.look == old(b.look)
  {
    var _ := b.Toggle();
    var _ := b.Toggle();
  }

  /** The blur button and the class lists of the two gallery containers it controls. */
  class BlurButton {
    const t: Strings
    /** `button.classList`. */
    var classes: set<string>
    var look: Look
    /** `classList` of `#txt2img_gallery_container` and of `#img2img_gallery_container`. */
    var txt2imgClasses: set<string>
    var img2imgClasses: set<string>

    /** The button as the widget builds it: class "gr-box" and the not-blurred look. */
    constructor(t: Strings, txt2imgClasses: set<string>, img2imgClasses: set<string>)
      ensures this.t == t && classes == {"gr-box"} && look == BlurLook(t, false)
      ensures this.txt2imgClasses == txt2imgClasses && this.img2imgClasses == img2imgClasses
    {
      this.t := t;
      classes := {"gr-box"};
      look := BlurLook(t, false);
      this.txt2imgClasses := txt2imgClasses;
      this.img2imgClasses := img2imgClasses;
    }

    function Blurred(): bool
      reads this
    {
      BlurredClass in classes
    }

    /** The look and both galleries agree with the button's class. */
    predicate Consistent()
      reads this
    {
      look == BlurLook(t, Blurred())
      && (GalleryBlurClass in txt2imgClasses <==> Blurred())
      && (GalleryBlurClass in img2imgClasses <==> Blurred())
    }

    /**
     * `toggleNSFWBlur`: `classList.toggle("nsfw_blurred")` gives the new bit;
     * the look follows it and each gallery gets or loses "anxety_blur" to match.
     */
    method Toggle() returns (isBlurred: bool)
      modifies this
      ensures isBlurred == !old(Blurred()) && isBlurred == Blurred()
      ensures classes == if isBlurred then old(classes) + {BlurredClass} else old(classes) - {BlurredClass}
      ensures look == BlurLook(t, isBlurred)
      ensures txt2imgClasses ==
        if isBlurred then old(txt2imgClasses) + {GalleryBlurClass} else old(txt2imgClasses) - {GalleryBlurClass}
      ensures img2imgClasses ==
        if isBlurred then old(img2imgClasses) + {GalleryBlurClass} else old(img2imgClasses) - {GalleryBlurClass}
      ensures Consistent()
    {
      if BlurredClass in classes {
        classes := classes - {BlurredClass};
        isBlurred := false;
      } else {
        classes := classes + {BlurredClass};
        isBlurred := true;
      }
      look := BlurLook(t, isBlurred);
      if isBlurred {
        txt2imgClasses := txt2imgClasses + {GalleryBlurClass};
        img2imgClasses := img2imgClasses + {GalleryBlurClass};
      } else {
        txt2imgClasses := txt2imgClasses - {GalleryBlurClass};
        img2imgClasses := img2imgClasses - {GalleryBlurClass};
      }
    }
  }

  /** Two clicks on a consistent blur button restore its classes, its look and both galleries. */
  method BlurTwice(b: BlurButton)
    requires b.Consistent()
    modifies b
    ensures b.classes == old(b.classes) && b.look == old(b.look)
    ensures b.txt2imgClasses == old(b.txt2imgClasses) && b.img2imgClasses == old(b.img2imgClasses)
  {
    var _ := b.Toggle();
    var _ := b.Toggle();
  }
}
