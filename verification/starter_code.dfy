/** The pages the stand-alone editor starts with and resets to, each as its
    three buffers. */
module StarterCode {
  import opened Buffers

  /** The markup buffer the editor opens with. */
  const InitialHtml: string :=
    "<!DOCTYPE html>\n"
    + "<html lang=\"en\">\n"
    + "<head>\n"
    + "    <meta charset=\"UTF-8\">\n"
    + "    <meta name=\"viewport\" content=\"width=device-width, initial-scale=1.0\">\n"
    + "    <title>CodeCraft Editor</title>\n"
    + "</head>\n"
    + "<body>\n"
    + "    <div class=\"container\">\n"
    + "        <h1>Welcome to CodeCraft!</h1>\n"
    + "        <p>Start coding and see your changes live!</p>\n"
    + "        <button onclick=\"changeColor()\" class=\"btn\">Click me!</button>\n"
    + "    </div>\n"
    + "</body>\n"
    + "</html>"

  /** The style buffer the editor opens with. */
  const InitialCss: string :=
    ".container {\n"
    + "    max-width: 800px;\n"
    + "    margin: 50px auto;\n"
    + "    padding: 40px;\n"
    + "    font-family: 'Segoe UI', system-ui, sans-serif;\n"
    + "    background: linear-gradient(135deg, #f6d365 0%, #fda085 100%);\n"
    + "    border-radius: 20px;\n"
    + "    box-shadow: 0 20px 40px rgba(0,0,0,0.1);\n"
    + "    color: #333;\n"
    + "    text-align: center;\n"
    + "    transition: all 0.3s ease;\n"
    + "}\n"
    + "\n"
    + "h1 {\n"
    + "    font-size: 2.5rem;\n"
    + "    margin-bottom: 1rem;\n"
    + "    text-shadow: 2px 2px 4px rgba(0,0,0,0.1);\n"
    + "    background: linear-gradient(45deg, #ff6b6b, #4ecdc4);\n"
    + "    -webkit-background-clip: text;\n"
    + "    -webkit-text-fill-color: transparent;\n"
    + "}\n"
    + "\n"
    + "p {\n"
    + "    font-size: 1.2rem;\n"
    + "    margin-bottom: 2rem;\n"
    + "    opacity: 0.8;\n"
    + "}\n"
    + "\n"
    + ".btn {\n"
    + "    background: linear-gradient(45deg, #667eea, #764ba2);\n"
    + "    color: white;\n"
    + "    border: none;\n"
    + "    padding: 15px 30px;\n"
    + "    font-size: 1.1rem;\n"
    + "    border-radius: 50px;\n"
    + "    cursor: pointer;\n"
    + "    transition: all 0.3s ease;\n"
    + "    box-shadow: 0 4px 15px rgba(102, 126, 234, 0.4);\n"
    + "    transform: translateY(0);\n"
    + "}\n"
    + "\n"
    + ".btn:hover {\n"
    + "    transform: translateY(-3px);\n"
    + "    box-shadow: 0 8px 25px rgba(102, 126, 234, 0.6);\n"
    + "}"

  /** The script buffer the editor opens with. */
  const InitialJavascript: string :=
    "function changeColor() {\n"
    + "    const colors = [\n"
    + "        'linear-gradient(135deg, #667eea 0%, #764ba2 100%)',\n"
    + "        'linear-gradient(135deg, #f093fb 0%, #f5576c 100%)',\n"
    + "        'linear-gradient(135deg, #4facfe 0%, #00f2fe 100%)',\n"
    + "        'linear-gradient(135deg, #43e97b 0%, #38f9d7 100%)',\n"
    + "        'linear-gradient(135deg, #fa709a 0%, #fee140 100%)',\n"
    + "        'linear-gradient(135deg, #f6d365 0%, #fda085 100%)'\n"
    + "    ];\n"
    + "    \n"
    + "    const container = document.querySelector('.container');\n"
    + "    const randomColor = colors[Math.floor(Math.random() * colors.length)];\n"
    + "    container.style.background = randomColor;\n"
    + "    \n"
    + "    // Add a fun animation\n"
    + "    container.style.transform = 'scale(1.05) rotate(1deg)';\n"
    + "    setTimeout(() => {\n"
    + "        container.style.transform = 'scale(1) rotate(0deg)';\n"
    + "    }, 300);\n"
    + "}\n"
    + "\n"
    + "// Add some interactive features\n"
    + "document.addEventListener('DOMContentLoaded', function() {\n"
    + "    const button = document.querySelector('.btn');\n"
    + "    const h1 = document.querySelector('h1');\n"
    + "    \n"
    + "    // Add click counter\n"
    + "    let clickCount = 0;\n"
    + "    button.addEventListener('click', function() {\n"
    + "        clickCount++;\n"
    + "        h1.textContent = `Welcome to CodeCraft! (Clicked ${clickCount} times)`;\n"
    + "        \n"
    + "        // Add sparkle effect\n"
    + "        createSparkles();\n"
    + "    });\n"
    + "    \n"
    + "    // Add keyboard interaction\n"
    + "    document.addEventListener('keydown', function(e) {\n"
    + "        if (e.key === ' ') {\n"
    + "            e.preventDefault();\n"
    + "            changeColor();\n"
    + "        }\n"
    + "    });\n"
    + "});\n"
    + "\n"
    + "function createSparkles() {\n"
    + "    for (let i = 0; i < 5; i++) {\n"
    + "        const sparkle = document.createElement('div');\n"
    + "        sparkle.innerHTML = '\U{2728}';\n"
    + "        sparkle.style.position = 'absolute';\n"
    + "        sparkle.style.left = Math.random() * 100 + '%';\n"
    + "        sparkle.style.top = Math.random() * 100 + '%';\n"
    + "        sparkle.style.fontSize = '20px';\n"
    + "        sparkle.style.pointerEvents = 'none';\n"
    + "        sparkle.style.animation = 'sparkle 1s ease-out forwards';\n"
    + "        document.body.appendChild(sparkle);\n"
    + "        \n"
    + "        setTimeout(() => sparkle.remove(), 1000);\n"
    + "    }\n"
    + "}\n"
    + "\n"
    + "// Add CSS for sparkle animation\n"
    + "const style = document.createElement('style');\n"
    + "style.textContent = `\n"
    + "    @keyframes sparkle {\n"
    + "        0% { opacity: 1; transform: scale(0) rotate(0deg); }\n"
    + "        50% { opacity: 1; transform: scale(1) rotate(180deg); }\n"
    + "        100% { opacity: 0; transform: scale(0) rotate(360deg); }\n"
    + "    }\n"
    + "`;\n"
    + "document.head.appendChild(style);"

  /** The markup buffer after a reset. */
  const ResetHtml: string :=
    "<!DOCTYPE html>\n"
    + "<html lang=\"en\">\n"
    + "<head>\n"
    + "    <meta charset=\"UTF-8\">\n"
    + "    <meta name=\"viewport\" content=\"width=device-width, initial-scale=1.0\">\n"
    + "    <title>CodeCraft Editor</title>\n"
    + "</head>\n"
    + "<body>\n"
    + "    <h1>Hello World!</h1>\n"
    + "    <p>Start coding here...</p>\n"
    + "</body>\n"
    + "</html>"

  /** The style buffer after a reset. */
  const ResetCss: string :=
    "body {\n"
    + "    font-family: 'Segoe UI', system-ui, sans-serif;\n"
    + "    margin: 0;\n"
    + "    padding: 20px;\n"
    + "    background: linear-gradient(135deg, #667eea 0%, #764ba2 100%);\n"
    + "    color: white;\n"
    + "    min-height: 100vh;\n"
    + "}\n"
    + "\n"
    + "h1 {\n"
    + "    color: #fff;\n"
    + "    text-align: center;\n"
    + "    font-size: 3rem;\n"
    + "    margin-bottom: 1rem;\n"
    + "}"

  /** The script buffer after a reset. */
  const ResetJavascript: string :=
    "console.log('Welcome to CodeCraft!');\n"
    + "\n"
    + "// Your JavaScript code here\n"
    + "document.addEventListener('DOMContentLoaded', function() {\n"
    + "    console.log('Page loaded successfully!');\n"
    + "});"

  /** The buffers the editor opens with. */
  const InitialBuffers := Buffers(InitialHtml, InitialCss, InitialJavascript)

  /** The buffers a reset gives. */
  const ResetBuffers := Buffers(ResetHtml, ResetCss, ResetJavascript)

  /** Resetting does not bring back the starting page: the reset markup is
      a different, shorter page. */
  lemma ResetDiffersFromInitial()
    ensures |ResetHtml| < |InitialHtml|
    ensures ResetBuffers.html != InitialHtml
  {
    assert |ResetHtml| == 266;
    assert |InitialHtml| == 412;
  }
}
